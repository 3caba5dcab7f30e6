/** The CPU section of /proc/stat. */
module CpuStat {
  import opened Common
  import opened Tokens

  /** The jiffy counters of one CPU line. */
  datatype CpuTimes = CpuTimes(user: u64, nice: u64, system: u64, idle: u64,
                               iowait: u64, irq: u64, softirq: u64, steal: u64)

  const ZERO: CpuTimes := CpuTimes(0, 0, 0, 0, 0, 0, 0, 0)

  const CPU: seq<byte> := [99, 112, 117]   // "cpu"

  /** Stores into the i-th of the eight slots. */
  function SetSlot(t: CpuTimes, i: nat, v: u64): CpuTimes
    requires i < 8
  {
    match i
    case 0 => t.(user := v)
    case 1 => t.(nice := v)
    case 2 => t.(system := v)
    case 3 => t.(idle := v)
    case 4 => t.(iowait := v)
    case 5 => t.(irq := v)
    case 6 => t.(softirq := v)
    case _ => t.(steal := v)
  }

  function TimesOf(fields: seq<seq<byte>>): CpuTimes {
    CpuTimes(Column(fields, 0), Column(fields, 1), Column(fields, 2), Column(fields, 3),
             Column(fields, 4), Column(fields, 5), Column(fields, 6), Column(fields, 7))
  }

  /** The slots below i are filled from the columns, the others still zero. */
  function FirstColumns(fields: seq<seq<byte>>, i: nat): CpuTimes
    requires i <= 8
  {
    if i == 0 then ZERO else SetSlot(FirstColumns(fields, i - 1), i - 1, Column(fields, i - 1))
  }

  function Slot(t: CpuTimes, i: nat): u64
    requires i < 8
  {
    match i
    case 0 => t.user case 1 => t.nice case 2 => t.system case 3 => t.idle
    case 4 => t.iowait case 5 => t.irq case 6 => t.softirq case _ => t.steal
  }

  lemma {:induction false} SlotFilled(fields: seq<seq<byte>>, i: nat, k: nat)
    requires i <= 8 && k < 8
    ensures Slot(FirstColumns(fields, i), k) == if k < i then Column(fields, k) else 0
  {
    if i > 0 { SlotFilled(fields, i - 1, k); }
  }

  lemma AllColumns(fields: seq<seq<byte>>)
    ensures FirstColumns(fields, 8) == TimesOf(fields)
  {
    hide FirstColumns, Column;
    SlotFilled(fields, 8, 0);
    SlotFilled(fields, 8, 1);
    SlotFilled(fields, 8, 2);
    SlotFilled(fields, 8, 3);
    SlotFilled(fields, 8, 4);
    SlotFilled(fields, 8, 5);
    SlotFilled(fields, 8, 6);
    SlotFilled(fields, 8, 7);
  }

  lemma {:induction false} UnsetColumns(fields: seq<seq<byte>>, i: nat, j: nat)
    requires |fields| <= i <= j <= 8
    ensures FirstColumns(fields, j) == FirstColumns(fields, i)
  {
    if i < j {
      UnsetColumns(fields, i, j - 1);
      ZeroSlot(fields, j - 1);
    }
  }

  /** Slots not reached yet are zero, so storing zero there changes nothing. */
  lemma ZeroSlot(fields: seq<seq<byte>>, i: nat)
    requires i < 8
    ensures SetSlot(FirstColumns(fields, i), i, 0) == FirstColumns(fields, i)
  {
    SlotFilled(fields, i, i);
  }

  method ParseCpuTimes(b: seq<byte>) returns (t: CpuTimes)
    ensures t == TimesOf(Fields(b))
  {
    t := ZERO;
    var rest := b;
    var i := 0;
    ghost var all := Fields(b);
    assert all[0..] == all;
    while i < 8
      invariant 0 <= i <= 8 && i <= |all|
      invariant Fields(rest) == all[i..] && t == FirstColumns(all, i)
    {
      var f, next := NextField(rest);
      if |f| == 0 {
        UnsetColumns(all, i, 8);
        break;
      }
      FieldsStep(rest);
      assert all[i] == f && all[i..][1..] == all[i + 1..];
      var v, ok := Atou(f);
      if ok {
        t := SetSlot(t, i, v);
      } else {
        ZeroSlot(all, i);
      }
      rest := next;
      i := i + 1;
    }
    AllColumns(all);
  }

  // ---------------------------------------------------------------- the section

  datatype Stat = Stat(total: CpuTimes, perCpu: seq<CpuTimes>)

  predicate IsCpuLine(line: seq<byte>) { CPU <= line }

  /** A line names the aggregate when its first field is exactly "cpu". */
  predicate IsAggregate(line: seq<byte>) { IsCpuLine(line) && |Field(line)| == 3 }

  function Absorb(s: Stat, line: seq<byte>): Stat {
    var t := TimesOf(Fields(AfterField(line)));
    if |Field(line)| == 3 then s.(total := t) else s.(perCpu := s.perCpu + [t])
  }

  /** Reading the contiguous cpu lines at the top; the first other line ends the section. */
  function Section(b: seq<byte>, s: Stat): Stat
    decreases |b|
  {
    if b == [] || !IsCpuLine(Line(b)) then s else Section(AfterLine(b), Absorb(s, Line(b)))
  }

  class StatBuffer {
    var total: CpuTimes
    var perCpu: seq<CpuTimes>

    constructor ()
      ensures total == ZERO && perCpu == []
    {
      total, perCpu := ZERO, [];
    }

    method ParseStat(buf: seq<byte>)
      modifies this
      ensures Stat(total, perCpu) == Section(buf, Stat(old(total), []))
    {
      perCpu := [];
      var b := buf;
      while |b| > 0
        invariant Section(b, Stat(total, perCpu)) == Section(buf, Stat(old(total), []))
        decreases |b|
      {
        var line, next := NextLine(b);
        if !(CPU <= line) {
          break;
        }
        ghost var before := Stat(total, perCpu);
        var name, rest := NextField(line);
        var t := ParseCpuTimes(rest);
        if |name| == 3 {
          total := t;
        } else {
          perCpu := perCpu + [t];
        }
        assert Stat(total, perCpu) == Absorb(before, line);
        b := next;
      }
    }
  }

  // ---------------------------------------------------------------- stale destination

  predicate HasAggregate(b: seq<byte>)
    decreases |b|
  {
    b != [] && IsCpuLine(Line(b)) && (IsAggregate(Line(b)) || HasAggregate(AfterLine(b)))
  }

  lemma {:induction false} SectionStale(b: seq<byte>, t: CpuTimes, u: CpuTimes, cores: seq<CpuTimes>)
    ensures HasAggregate(b) ==> Section(b, Stat(t, cores)) == Section(b, Stat(u, cores))
    ensures !HasAggregate(b) ==> Section(b, Stat(t, cores)).total == t
    decreases |b|
  {
    if b != [] && IsCpuLine(Line(b)) {
      var line := Line(b);
      if !IsAggregate(line) {
        SectionStale(AfterLine(b), t, u, Absorb(Stat(t, cores), line).perCpu);
      }
    }
  }

  /**
   The parse is independent of what the reused destination held exactly when the section has
   an aggregate line: the core list is always rebuilt, the total only when a line sets it.
   */
  lemma StaleTotalIffNoAggregate(b: seq<byte>)
    ensures HasAggregate(b) <==> forall t, u :: Section(b, Stat(t, [])) == Section(b, Stat(u, []))
  {
    if HasAggregate(b) {
      forall t, u ensures Section(b, Stat(t, [])) == Section(b, Stat(u, [])) { SectionStale(b, t, u, []); }
    } else {
      var one := ZERO.(user := 1);
      SectionStale(b, ZERO, one, []);
      SectionStale(b, one, ZERO, []);
    }
  }

  lemma CpuWord(suffix: seq<byte>)
    requires suffix == [] || Word(suffix)
    ensures Word(CPU + suffix)
  {
    forall i | 0 <= i < |CPU + suffix| ensures !IsSep((CPU + suffix)[i]) {}
  }

  /** A section holding only "cpu0": whatever total the destination held stays. */
  lemma StaleTotalExample(t: CpuTimes)
    ensures Section(CPU + [48], Stat(t, [])).total == t
  {
    hide Section;
    var b := CPU + [48];
    LineLenUnique(b, |b|);
    assert Line(b) == b && AfterLine(b) == [];
    CpuWord([48]);
    FieldOf([], b, []);
    assert [] + b + [] == b;
    assert Field(b) == b && !IsAggregate(b) && !HasAggregate([]);
    SectionStale(b, t, t, []);
  }

  // ---------------------------------------------------------------- parsing inverts printing

  /** A cpu line to print: what follows "cpu", the separator runs, the columns, trailing blanks. */
  datatype CpuLine = CpuLine(suffix: seq<byte>, gaps: seq<seq<byte>>, columns: seq<seq<byte>>, trail: seq<byte>)
  {
    predicate Valid() {
      && (suffix == [] || Word(suffix))
      && Printable(gaps, columns)
      && Blank(trail)
      && LF !in Text()
    }

    function Text(): seq<byte>
      requires |gaps| == |columns|
    {
      CPU + suffix + (Spaced(gaps, columns) + trail)
    }
  }

  lemma LineFields(l: CpuLine)
    requires l.Valid()
    ensures IsCpuLine(l.Text()) && Field(l.Text()) == CPU + l.suffix
    ensures Fields(AfterField(l.Text())) == l.columns
  {
    hide Word, Blank, Spaced, Field, AfterField, Fields;
    var rest := Spaced(l.gaps, l.columns) + l.trail;
    SpacedBounded(l.gaps, l.columns, l.trail);
    CpuWord(l.suffix);
    NoGap();
    FieldOf([], CPU + l.suffix, rest);
    assert [] + (CPU + l.suffix) + rest == l.Text();
    FieldsOfSpaced(l.gaps, l.columns, l.trail);
  }

  lemma NoGap()
    ensures Blank([])
  {
  }

  ghost predicate AllValid(ls: seq<CpuLine>) { forall l :: l in ls ==> l.Valid() }

  function Text(ls: seq<CpuLine>): seq<byte>
    requires AllValid(ls)
  {
    if ls == [] then []
    else
      assert ls[0] in ls && forall l :: l in ls[1..] ==> l in ls;
      ls[0].Text() + [LF] + Text(ls[1..])
  }

  /** What reading the lines in order leaves behind. */
  function Meaning(ls: seq<CpuLine>, s: Stat): Stat {
    if ls == [] then s
    else Meaning(ls[1..], if ls[0].suffix == [] then s.(total := TimesOf(ls[0].columns))
                          else s.(perCpu := s.perCpu + [TimesOf(ls[0].columns)]))
  }

  lemma TextCons(ls: seq<CpuLine>)
    requires AllValid(ls) && ls != []
    ensures AllValid(ls[1..]) && ls[0].Valid()
    ensures Text(ls) == ls[0].Text() + [LF] + Text(ls[1..])
  {
    assert ls[0] in ls && forall l :: l in ls[1..] ==> l in ls;
  }

  lemma TextStep(ls: seq<CpuLine>, after: seq<byte>)
    requires AllValid(ls) && ls != []
    ensures AllValid(ls[1..]) && ls[0].Valid()
    ensures var b := Text(ls) + after;
            b != [] && Line(b) == ls[0].Text() && AfterLine(b) == Text(ls[1..]) + after
  {
    hide Line, AfterLine, Text, AllValid;
    TextCons(ls);
    LineOf(ls[0].Text(), Text(ls[1..]) + after);
    Associative(ls[0].Text() + [LF], Text(ls[1..]), after);
  }

  /** A section, followed by nothing or by a line that is not a cpu line, reads back as printed. */
  lemma {:induction false} SectionOfText(ls: seq<CpuLine>, after: seq<byte>, s: Stat)
    requires AllValid(ls) && (after == [] || !IsCpuLine(Line(after)))
    ensures Section(Text(ls) + after, s) == Meaning(ls, s)
  {
    if ls == [] {
      assert Text(ls) + after == after;
    } else {
      hide Line, AfterLine, Text, TimesOf;
      TextStep(ls, after);
      LineFields(ls[0]);
      SectionOfText(ls[1..], after, Absorb(s, ls[0].Text()));
    }
  }

  /** The columns of a line that prints the eight counters, then any further columns. */
  ghost predicate Shows(l: CpuLine, t: CpuTimes) {
    && |l.columns| >= 8
    && l.columns[0] == Print(t.user) && l.columns[1] == Print(t.nice)
    && l.columns[2] == Print(t.system) && l.columns[3] == Print(t.idle)
    && l.columns[4] == Print(t.iowait) && l.columns[5] == Print(t.irq)
    && l.columns[6] == Print(t.softirq) && l.columns[7] == Print(t.steal)
  }

  lemma ShownTimes(l: CpuLine, t: CpuTimes)
    requires Shows(l, t)
    ensures TimesOf(l.columns) == t
  {
    hide Print, ValueOf;
    PrintedValue(t.user);
    PrintedValue(t.nice);
    PrintedValue(t.system);
    PrintedValue(t.idle);
    PrintedValue(t.iowait);
    PrintedValue(t.irq);
    PrintedValue(t.softirq);
    PrintedValue(t.steal);
  }

  lemma {:induction false} MeaningOfCores(ls: seq<CpuLine>, cores: seq<CpuTimes>, s: Stat)
    requires |ls| == |cores|
    requires forall i :: 0 <= i < |ls| ==> ls[i].suffix != [] && Shows(ls[i], cores[i])
    ensures Meaning(ls, s) == s.(perCpu := s.perCpu + cores)
  {
    if ls != [] {
      ShownTimes(ls[0], cores[0]);
      hide Shows, TimesOf;
      MeaningOfCores(ls[1..], cores[1..], s.(perCpu := s.perCpu + [cores[0]]));
      assert cores == [cores[0]] + cores[1..];
      Associative(s.perCpu, [cores[0]], cores[1..]);
    } else {
      assert s.perCpu + cores == s.perCpu;
    }
  }

  /**
   parseStat inverts printing: from an aggregate line and any number of core lines, with any
   separator runs, any further columns, and any following section, exactly the printed counters
   are recovered, whatever the destination held before.
   */
  lemma ParseInvertsPrint(aggregate: CpuLine, cores: seq<CpuLine>, total: CpuTimes, perCpu: seq<CpuTimes>,
                          after: seq<byte>, stale: CpuTimes)
    requires aggregate.Valid() && AllValid(cores) && (after == [] || !IsCpuLine(Line(after)))
    requires aggregate.suffix == [] && Shows(aggregate, total)
    requires |cores| == |perCpu|
    requires forall i :: 0 <= i < |cores| ==> cores[i].suffix != [] && Shows(cores[i], perCpu[i])
    ensures AllValid([aggregate] + cores)
    ensures Section(Text([aggregate] + cores) + after, Stat(stale, [])) == Stat(total, perCpu)
  {
    var ls := [aggregate] + cores;
    SectionOfText(ls, after, Stat(stale, []));
    ShownTimes(aggregate, total);
    hide Shows, TimesOf;
    MeaningOfCores(cores, perCpu, Stat(total, []));
    assert ls[0] == aggregate && ls[1..] == cores;
    assert [] + perCpu == perCpu;
  }

  // ---------------------------------------------------------------- the kernel's format

  /**
   A line of the section: the core's number, none for the aggregate, the eight counters and any
   further columns, with one space or more before each column.
   */
  datatype Printed = Printed(core: seq<byte>, pads: seq<nat>, times: CpuTimes, more: seq<seq<byte>>)
  {
    predicate Proper() {
      && |pads| == 8 + |more|
      && (forall k :: 0 <= k < |core| ==> 48 <= core[k] <= 57)
      && (forall c :: c in more ==> Solid(c))
    }
  }

  function Counters(t: CpuTimes): (r: seq<seq<byte>>)
    ensures |r| == 8
  {
    [Print(t.user), Print(t.nice), Print(t.system), Print(t.idle),
     Print(t.iowait), Print(t.irq), Print(t.softirq), Print(t.steal)]
  }

  function Row(p: Printed): (r: seq<seq<byte>>)
    ensures |r| == 8 + |p.more|
  {
    Counters(p.times) + p.more
  }

  /** "cpu", the core's number, the counters, and a line feed, byte for byte. */
  function KernelLine(p: Printed): seq<byte>
    requires p.Proper()
  {
    [99, 112, 117] + p.core + Columns(p.pads, Row(p)) + [10]
  }

  function KernelLines(ps: seq<Printed>): seq<byte>
    requires forall p :: p in ps ==> p.Proper()
  {
    if ps == [] then []
    else
      assert ps[0] in ps && forall p :: p in ps[1..] ==> p in ps;
      KernelLine(ps[0]) + KernelLines(ps[1..])
  }

  function TimesPrinted(ps: seq<Printed>): (r: seq<CpuTimes>)
    ensures |r| == |ps| && forall i :: 0 <= i < |ps| ==> r[i] == ps[i].times
  {
    seq(|ps|, i requires 0 <= i < |ps| => ps[i].times)
  }

  function AsLine(p: Printed): CpuLine { CpuLine(p.core, Gaps(p.pads), Row(p), []) }

  function AsLines(ps: seq<Printed>): (r: seq<CpuLine>)
    ensures |r| == |ps| && forall i :: 0 <= i < |ps| ==> r[i] == AsLine(ps[i])
  {
    seq(|ps|, i requires 0 <= i < |ps| => AsLine(ps[i]))
  }

  lemma CountersSolid(t: CpuTimes)
    ensures forall c :: c in Counters(t) ==> Solid(c) && Digits(c)
  {
    hide Print;
  }

  lemma RowSolid(p: Printed)
    requires p.Proper()
    ensures forall c :: c in Row(p) ==> Solid(c)
    ensures forall i :: 0 <= i < |Row(p)| ==> LF !in Row(p)[i]
  {
    hide Counters;
    CountersSolid(p.times);
    forall i | 0 <= i < |Row(p)| ensures LF !in Row(p)[i] {
      assert Row(p)[i] in Row(p) && Solid(Row(p)[i]);
    }
  }

  lemma CoreText(p: Printed)
    requires p.Proper()
    ensures LF !in p.core && (p.core == [] || Word(p.core))
  {
  }

  lemma KernelLineText(p: Printed)
    requires p.Proper()
    ensures AsLine(p).Valid() && AsLine(p).Text() + [LF] == KernelLine(p)
  {
    hide Row, Columns, Spaced, Printable, Solid, Digits, Gaps, Word;
    RowSolid(p);
    CoreText(p);
    ColumnsPrintable(p.pads, Row(p));
    ColumnsSpaced(p.pads, Row(p));
    ColumnsHold(p.pads, Row(p), LF);
    NoGap();
    assert Spaced(Gaps(p.pads), Row(p)) + [] == Columns(p.pads, Row(p));
    assert AsLine(p).Text() == CPU + p.core + Columns(p.pads, Row(p));
  }

  lemma {:induction false} KernelLinesText(ps: seq<Printed>)
    requires forall p :: p in ps ==> p.Proper()
    ensures AllValid(AsLines(ps)) && Text(AsLines(ps)) == KernelLines(ps)
  {
    hide KernelLine, AsLine;
    if ps != [] {
      var ls := AsLines(ps);
      assert ps[0] in ps && forall p :: p in ps[1..] ==> p in ps;
      KernelLineText(ps[0]);
      KernelLinesText(ps[1..]);
      assert ls[1..] == AsLines(ps[1..]);
      ValidCons(ls);
    }
  }

  lemma ValidCons(ls: seq<CpuLine>)
    requires ls != [] && ls[0].Valid() && AllValid(ls[1..])
    ensures AllValid(ls)
  {
    forall l | l in ls ensures l.Valid() { assert ls == [ls[0]] + ls[1..]; }
  }

  /**
   The kernel's text, byte for byte, with runs of spaces: an aggregate line, numbered core lines
   and whatever follows that does not start with "cpu" read back as exactly the printed counters.
   */
  lemma ParseInvertsKernel(first: Printed, cores: seq<Printed>, after: seq<byte>, stale: CpuTimes)
    requires first.Proper() && first.core == [] && !([99, 112, 117] <= after)
    requires forall p :: p in cores ==> p.Proper() && p.core != []
    ensures Section(KernelLine(first) + KernelLines(cores) + after, Stat(stale, []))
            == Stat(first.times, TimesPrinted(cores))
  {
    hide KernelLine, KernelLines, Section, AsLine;
    KernelLineText(first);
    KernelLinesText(cores);
    PrintedShows(first);
    forall i | 0 <= i < |cores| ensures AsLine(cores[i]).suffix != [] && Shows(AsLine(cores[i]), cores[i].times) {
      assert cores[i] in cores;
      PrintedShows(cores[i]);
    }
    NotCpuLine(after);
    ParseInvertsPrint(AsLine(first), AsLines(cores), first.times, TimesPrinted(cores), after, stale);
    TextOfCons(AsLine(first), AsLines(cores));
  }

  lemma PrintedShows(p: Printed)
    ensures Shows(AsLine(p), p.times) && AsLine(p).suffix == p.core
  {
    hide Print;
  }

  lemma NotCpuLine(after: seq<byte>)
    requires !([99, 112, 117] <= after)
    ensures !IsCpuLine(Line(after))
  {
    hide LineLen;
  }

  lemma TextOfCons(l: CpuLine, ls: seq<CpuLine>)
    requires AllValid([l] + ls) && AllValid(ls) && l.Valid()
    ensures Text([l] + ls) == l.Text() + [LF] + Text(ls)
  {
    assert ([l] + ls)[1..] == ls;
  }
}
