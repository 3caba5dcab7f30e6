/** /proc/<pid>/stat: the command name between parentheses, then numbered fields. */
module ProcStat {
  import opened Common
  import opened Tokens

  const OPEN: byte := 40
  const CLOSE: byte := 41

  /** int(v) of a Go uint64: two's complement. */
  function ToInt(v: u64): int { if v < TWO64 / 2 then v else v - TWO64 }

  datatype ProcStat = ProcStat(comm: seq<byte>, state: seq<byte>, ppid: int, jiffies: u64, rss: u64, threads: int)

  /** What the fields after the name mean; a missing or malformed number counts as zero. */
  function FromFields(comm: seq<byte>, fields: seq<seq<byte>>, pageSize: u64): ProcStat {
    ProcStat(comm,
             if |fields| > 0 then fields[0] else [],
             ToInt(Column(fields, 1)),
             Wrap(Column(fields, 11) as int + Column(fields, 12) as int),
             Wrap(Column(fields, 21) as int * pageSize as int),
             ToInt(Column(fields, 17)))
  }

  // ---------------------------------------------------------------- searching

  function First(b: seq<byte>, c: byte): (i: int)
    ensures -1 <= i < |b|
  {
    if b == [] then -1
    else if b[0] == c then 0
    else if First(b[1..], c) < 0 then -1
    else 1 + First(b[1..], c)
  }

  function LastIndex(b: seq<byte>, c: byte): (i: int)
    ensures -1 <= i < |b|
  {
    if b == [] then -1 else if Last(b) == c then |b| - 1 else LastIndex(Front(b), c)
  }

  lemma {:induction false} FirstIs(b: seq<byte>, c: byte, i: nat)
    requires i <= |b| && c !in b[..i] && (i < |b| ==> b[i] == c)
    ensures First(b, c) == if i < |b| then i else -1
  {
    if i > 0 {
      assert b[0] == b[..i][0] && b[1..][..i - 1] == b[..i][1..];
      FirstIs(b[1..], c, i - 1);
    }
  }

  lemma {:induction false} LastIs(b: seq<byte>, c: byte, i: nat)
    requires i < |b| && c !in b[i + 1..] && b[i] == c
    ensures LastIndex(b, c) == i
  {
    if i + 1 < |b| {
      assert Last(b) == Last(b[i + 1..]) && Front(b)[i + 1..] == Front(b[i + 1..]);
      LastIs(Front(b), c, i);
    }
  }

  lemma {:induction false} LastNone(b: seq<byte>, c: byte)
    requires c !in b
    ensures LastIndex(b, c) == -1
  {
    if b != [] { LastNone(Front(b), c); }
  }

  lemma {:induction false} LastIsLater(b: seq<byte>, c: byte, k: nat)
    requires k < |b| && b[k] == c
    ensures LastIndex(b, c) >= k
  {
    if Last(b) != c { LastIsLater(Front(b), c, k); }
  }

  method IndexByte(b: seq<byte>, c: byte) returns (i: int)
    ensures i == First(b, c)
  {
    i := 0;
    while i < |b|
      invariant 0 <= i <= |b| && c !in b[..i]
    {
      if b[i] == c {
        FirstIs(b, c, i);
        return;
      }
      assert b[..i + 1] == b[..i] + [b[i]];
      i := i + 1;
    }
    FirstIs(b, c, i);
    i := -1;
  }

  method LastIndexByte(b: seq<byte>, c: byte) returns (i: int)
    ensures i == LastIndex(b, c)
  {
    i := |b| - 1;
    while i >= 0
      invariant -1 <= i < |b| && c !in b[i + 1..]
    {
      if b[i] == c {
        LastIs(b, c, i);
        return;
      }
      assert b[i..] == [b[i]] + b[i + 1..];
      i := i - 1;
    }
    assert b[0..] == b;
    LastNone(b, c);
  }

  // ---------------------------------------------------------------- parsing

  /** The meaning of a line: the name lies between the first '(' and the last ')'. */
  function Parse(b: seq<byte>, pageSize: u64): Option<ProcStat> {
    var open, close := First(b, OPEN), LastIndex(b, CLOSE);
    if open < 0 || close <= open then None
    else Some(FromFields(b[open + 1..close], Fields(b[close + 1..]), pageSize))
  }

  /** The loop's variables. */
  datatype Loop = Loop(ps: ProcStat, utime: u64, stime: u64)

  function NumberOf(f: seq<byte>): u64 {
    if ValueOf(f).Some? then ValueOf(f).value else 0
  }

  function Absorb(l: Loop, i: nat, f: seq<byte>, pageSize: u64): Loop {
    var v := NumberOf(f);
    match i
    case 0 => l.(ps := l.ps.(state := f))
    case 1 => if ValueOf(f).Some? then l.(ps := l.ps.(ppid := ToInt(v))) else l
    case 11 => l.(utime := v)
    case 12 => l.(stime := v)
    case 17 => if ValueOf(f).Some? then l.(ps := l.ps.(threads := ToInt(v))) else l
    case 21 => if ValueOf(f).Some? then l.(ps := l.ps.(rss := Wrap(v as int * pageSize as int))) else l
    case _ => l
  }

  function AbsorbAll(comm: seq<byte>, fields: seq<seq<byte>>, pageSize: u64): Loop {
    if fields == [] then Loop(ProcStat(comm, [], 0, 0, 0, 0), 0, 0)
    else Absorb(AbsorbAll(comm, Front(fields), pageSize), |fields| - 1, Last(fields), pageSize)
  }

  lemma ColumnFront(fields: seq<seq<byte>>, k: nat)
    requires fields != []
    ensures Column(fields, k) == if k == |fields| - 1 then NumberOf(Last(fields)) else Column(Front(fields), k)
    ensures Column(Front(fields), |fields| - 1) == 0
  {
  }

  /** Absorbing fields one by one puts every number in its place. */
  lemma {:induction false} AbsorbedFields(comm: seq<byte>, fields: seq<seq<byte>>, pageSize: u64)
    ensures AbsorbAll(comm, fields, pageSize) ==
            Loop(FromFields(comm, fields, pageSize).(jiffies := 0), Column(fields, 11), Column(fields, 12))
  {
    if fields != [] {
      AbsorbedFields(comm, Front(fields), pageSize);
      hide Column, ValueOf;
      ColumnFront(fields, 1);
      ColumnFront(fields, 11);
      ColumnFront(fields, 12);
      ColumnFront(fields, 17);
      ColumnFront(fields, 21);
    }
  }

  lemma FieldsEnd(b: seq<byte>)
    ensures Field(b) == [] <==> Fields(b) == []
    ensures b == [] ==> Fields(b) == []
  {
  }

  lemma AbsorbStep(comm: seq<byte>, all: seq<seq<byte>>, pageSize: u64, i: nat)
    requires i < |all|
    ensures AbsorbAll(comm, all[..i + 1], pageSize) == Absorb(AbsorbAll(comm, all[..i], pageSize), i, all[i], pageSize)
  {
    hide Absorb;
    assert Front(all[..i + 1]) == all[..i];
  }

  lemma AbsorbNone(comm: seq<byte>, all: seq<seq<byte>>, pageSize: u64)
    ensures AbsorbAll(comm, all[..0], pageSize) == Loop(ProcStat(comm, [], 0, 0, 0, 0), 0, 0)
  {
  }

  method ParseFields(comm: seq<byte>, b: seq<byte>, pageSize: u64) returns (ps: ProcStat)
    ensures ps == FromFields(comm, Fields(b), pageSize)
  {
    hide FromFields, Fields, Column, ValueOf, Field, AbsorbAll;
    ps := ProcStat(comm, [], 0, 0, 0, 0);
    var utime: u64, stime: u64, haveU, haveS := 0, 0, false, false;
    var rest, i := b, 0;
    ghost var all := Fields(b);
    AbsorbNone(comm, all, pageSize);
    assert all[0..] == all;
    while |rest| > 0
      invariant 0 <= i <= |all| && Fields(rest) == all[i..]
      invariant Loop(ps, utime, stime) == AbsorbAll(comm, all[..i], pageSize)
      invariant (!haveU ==> utime == 0) && (!haveS ==> stime == 0)
      decreases |rest|
    {
      var f, next := NextField(rest);
      FieldsEnd(rest);
      if |f| == 0 {
        rest := [];
        break;
      }
      FieldsStep(rest);
      assert all[i] == f && all[i..][1..] == all[i + 1..];
      AbsorbStep(comm, all, pageSize, i);
      var v, ok := Atou(f);
      match i {
        case 0 => ps := ps.(state := f);
        case 1 => if ok { ps := ps.(ppid := ToInt(v)); }
        case 11 => utime, haveU := v, ok;
        case 12 => stime, haveS := v, ok;
        case 17 => if ok { ps := ps.(threads := ToInt(v)); }
        case 21 => if ok { ps := ps.(rss := Wrap(v as int * pageSize as int)); }
        case _ =>
      }
      rest := next;
      i := i + 1;
    }
    FieldsEnd(rest);
    assert all[..i] == all;
    AbsorbedFields(comm, all, pageSize);
    FinalJiffies(comm, all, pageSize);
    if haveU {
      ps := ps.(jiffies := Wrap(ps.jiffies as int + utime as int));
    }
    if haveS {
      ps := ps.(jiffies := Wrap(ps.jiffies as int + stime as int));
    }
  }

  lemma FinalJiffies(comm: seq<byte>, fields: seq<seq<byte>>, pageSize: u64)
    ensures var ps := FromFields(comm, fields, pageSize); var u, s := Column(fields, 11), Column(fields, 12);
            ps == ps.(jiffies := 0).(jiffies := Wrap(u as int + s as int))
            && Wrap(0 + u as int) == u && Wrap(0 + s as int) == s
  {
    hide Column;
    WrapExact(Column(fields, 11) as int);
    WrapExact(Column(fields, 12) as int);
  }

  /** Splits on the last ')', since the name itself may hold blanks and parentheses. */
  method ParseProcStat(b: seq<byte>, pageSize: u64) returns (r: Option<ProcStat>)
    ensures r == Parse(b, pageSize)
  {
    hide First, LastIndex, FromFields, Fields, Field, Column;
    var open := IndexByte(b, OPEN);
    var close := LastIndexByte(b, CLOSE);
    if open < 0 || close < 0 || close < open {
      return None;
    }
    FirstFinds(b, OPEN);
    LastFinds(b, CLOSE);
    assert open != close;
    var ps := ParseFields(b[open + 1..close], b[close + 1..], pageSize);
    r := Some(ps);
  }

  lemma {:induction false} FirstFinds(b: seq<byte>, c: byte)
    ensures First(b, c) >= 0 ==> b[First(b, c)] == c
  {
    if b != [] { FirstFinds(b[1..], c); }
  }

  lemma {:induction false} LastFinds(b: seq<byte>, c: byte)
    ensures LastIndex(b, c) >= 0 ==> b[LastIndex(b, c)] == c
  {
    if b != [] { LastFinds(Front(b), c); }
  }

  lemma {:induction false} FirstAtMost(b: seq<byte>, c: byte, i: nat)
    requires i < |b| && b[i] == c
    ensures 0 <= First(b, c) <= i
  {
    if i > 0 { FirstAtMost(b[1..], c, i - 1); }
  }

  /** A line is refused exactly when it has no '(' with a ')' somewhere after it. */
  lemma RefusedIff(b: seq<byte>, pageSize: u64)
    ensures Parse(b, pageSize).None? <==> !exists i, j :: 0 <= i < j < |b| && b[i] == 40 && b[j] == 41
  {
    hide First, LastIndex, FromFields, Fields;
    FirstFinds(b, OPEN);
    LastFinds(b, CLOSE);
    if i, j :| 0 <= i < j < |b| && b[i] == 40 && b[j] == 41 {
      FirstAtMost(b, OPEN, i);
      LastIsLater(b, CLOSE, j);
    }
  }

  // ---------------------------------------------------------------- parsing inverts printing

  /** A line: pid and blank, the command name in parentheses, then the rest. */
  function LineText(pid: seq<byte>, comm: seq<byte>, rest: seq<byte>): seq<byte> {
    pid + [OPEN] + comm + [CLOSE] + rest
  }

  lemma NameBounds(pid: seq<byte>, comm: seq<byte>, rest: seq<byte>)
    requires OPEN !in pid
    ensures var b := LineText(pid, comm, rest); var c := |pid| + 1 + |comm|;
            && |b| > c && First(b, OPEN) == |pid| && b[c] == CLOSE
            && b[|pid| + 1..c] == comm && b[c + 1..] == rest
            && (CLOSE !in rest ==> LastIndex(b, CLOSE) == c)
  {
    var b, c := LineText(pid, comm, rest), |pid| + 1 + |comm|;
    assert b[..|pid|] == pid;
    FirstIs(b, OPEN, |pid|);
    assert b[c + 1..] == rest;
    if CLOSE !in rest { LastIs(b, CLOSE, c); }
  }

  /**
   The last-parenthesis rule: for every byte string as command name, with spaces, line feeds
   or any nesting of parentheses, the name and the fields come back exactly, provided what
   follows the name holds no ')'.
   */
  lemma NameRecovered(pid: seq<byte>, comm: seq<byte>, gaps: seq<seq<byte>>, fields: seq<seq<byte>>,
                      trail: seq<byte>, pageSize: u64)
    requires OPEN !in pid && Printable(gaps, fields) && Blank(trail)
    requires CLOSE !in Spaced(gaps, fields) + trail
    ensures Parse(LineText(pid, comm, Spaced(gaps, fields) + trail), pageSize)
            == Some(FromFields(comm, fields, pageSize))
  {
    hide First, LastIndex, FromFields, LineText, Fields, Spaced;
    NameBounds(pid, comm, Spaced(gaps, fields) + trail);
    FieldsOfSpaced(gaps, fields, trail);
  }

  /**
   The kernel's line, byte for byte: decimal pid, the name between '(' and ')', then fields after
   runs of spaces. Any name and all fields come back if no field holds a ')'.
   */
  lemma KernelLineRecovered(pid: seq<byte>, comm: seq<byte>, pads: seq<nat>, fields: seq<seq<byte>>, pageSize: u64)
    requires forall k :: 0 <= k < |pid| ==> 48 <= pid[k] <= 57
    requires |pads| == |fields| && forall f :: f in fields ==> Solid(f) && 41 !in f
    ensures Parse(pid + [32, 40] + comm + [41] + Columns(pads, fields) + [10], pageSize)
            == Some(FromFields(comm, fields, pageSize))
  {
    hide Parse, FromFields, Columns, Spaced, Printable;
    var trail: seq<byte> := [10];
    ColumnsPrintable(pads, fields);
    ColumnsSpaced(pads, fields);
    forall i | 0 <= i < |fields| ensures 41 !in fields[i] { assert fields[i] in fields; }
    ColumnsHold(pads, fields, 41);
    NameRecovered(pid + [32], comm, Gaps(pads), fields, trail, pageSize);
    assert LineText(pid + [32], comm, Columns(pads, fields) + trail)
        == pid + [32, 40] + comm + [41] + Columns(pads, fields) + [10];
  }

  /** And only then: with a ')' after the name, a longer name comes back. */
  lemma NameRecoveredIff(pid: seq<byte>, comm: seq<byte>, rest: seq<byte>, pageSize: u64)
    requires OPEN !in pid
    ensures var r := Parse(LineText(pid, comm, rest), pageSize);
            r.Some? && (r.value.comm == comm <==> CLOSE !in rest)
  {
    hide First, LastIndex, LineText, Fields, Column;
    var b, c := LineText(pid, comm, rest), |pid| + 1 + |comm|;
    NameBounds(pid, comm, rest);
    LastIsLater(b, CLOSE, c);
    if CLOSE in rest {
      var k :| 0 <= k < |rest| && rest[k] == CLOSE;
      assert b[c + 1..][k] == b[c + 1 + k];
      LastIsLater(b, CLOSE, c + 1 + k);
      assert |b[|pid| + 1..LastIndex(b, CLOSE)]| > |comm|;
    }
  }

  /**
   The numbers come back as printed, within 64 bits: parent and thread count as Go ints, user
   and system time summed, resident pages in bytes; the sum and the product are exact precisely
   when they fit.
   */
  lemma NumbersRecovered(comm: seq<byte>, fields: seq<seq<byte>>, pageSize: u64, ppid: u64, utime: u64, stime: u64,
                         threads: u64, pages: u64)
    requires |fields| > 21 && fields[1] == Print(ppid) && fields[11] == Print(utime)
    requires fields[12] == Print(stime) && fields[17] == Print(threads) && fields[21] == Print(pages)
    ensures var ps := FromFields(comm, fields, pageSize);
            && ps.comm == comm && ps.state == fields[0]
            && (ps.ppid == ppid <==> ppid < 0x8000_0000_0000_0000)
            && (ps.threads == threads <==> threads < 0x8000_0000_0000_0000)
            && (ps.jiffies == utime as int + stime as int <==> utime as int + stime as int < 0x1_0000_0000_0000_0000)
            && (ps.rss == pages as int * pageSize as int <==> pages as int * pageSize as int < 0x1_0000_0000_0000_0000)
  {
    hide Print, Column, Wrap;
    PrintedColumn(fields, 1, ppid);
    PrintedColumn(fields, 11, utime);
    PrintedColumn(fields, 12, stime);
    PrintedColumn(fields, 17, threads);
    PrintedColumn(fields, 21, pages);
    WrapExact(utime as int + stime as int);
    ProductNat(pages as int, pageSize as int);
    WrapExact(pages as int * pageSize as int);
  }

  lemma PrintedColumn(fields: seq<seq<byte>>, i: nat, n: u64)
    requires i < |fields| && fields[i] == Print(n)
    ensures Column(fields, i) == n
  {
    PrintedValue(n);
  }

  lemma WrapExact(x: nat)
    ensures Wrap(x) == x <==> x < TWO64
  {
  }

  lemma ProductNat(a: nat, b: nat)
    ensures a * b >= 0
  {
  }
}
