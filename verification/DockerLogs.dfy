/** Docker's multiplexed log stream: the frame demultiplexer and the line splitter. */
module DockerLogs {
  import opened Common

  const STDERR: byte := 2

  datatype Stream = Stdout | Stderr

  /** One payload handed to emit. */
  datatype Out = Out(stream: Stream, payload: seq<byte>)

  /** A frame as the engine writes it: stream code, three bytes nobody reads, size, payload. */
  datatype Frame = Frame(code: byte, pad: seq<byte>, payload: seq<byte>)

  predicate WellFormed(f: Frame) { |f.pad| == 3 && |f.payload| < 0x1_0000_0000 }

  function StreamOf(code: byte): Stream { if code == STDERR then Stderr else Stdout }

  // ---------------------------------------------------------------- big-endian sizes

  function Size(b: seq<byte>): (n: nat)
    requires |b| == 4
    ensures n < 0x1_0000_0000
  {
    ((b[0] as int * 0x100 + b[1] as int) * 0x100 + b[2] as int) * 0x100 + b[3] as int
  }

  function SizeBytes(n: nat): (b: seq<byte>)
    requires n < 0x1_0000_0000
    ensures |b| == 4
  {
    [n / 0x100 / 0x100 / 0x100, n / 0x100 / 0x100 % 0x100, n / 0x100 % 0x100, n % 0x100]
  }

  /** The size is big-endian. */
  lemma BigEndian(b: seq<byte>)
    requires |b| == 4
    ensures Size(b) == b[0] as int * 0x100_0000 + b[1] as int * 0x1_0000 + b[2] as int * 0x100 + b[3] as int
  {
  }

  lemma HeaderSize(b: seq<byte>)
    requires |b| >= 8
    ensures Size(b[4..8]) ==
            b[4] as int * 0x100_0000 + b[5] as int * 0x1_0000 + b[6] as int * 0x100 + b[7] as int
  {
    hide Size;
    BigEndian(b[4..8]);
  }

  lemma Digit(m: nat, d: byte)
    ensures (m * 0x100 + d as int) / 0x100 == m && (m * 0x100 + d as int) % 0x100 == d as int
  {
  }

  lemma SizeOfBytes(n: nat)
    requires n < 0x1_0000_0000
    ensures Size(SizeBytes(n)) == n
  {
    var a := n / 0x100;
    var b := a / 0x100;
    assert n == a * 0x100 + n % 0x100 && a == b * 0x100 + a % 0x100 && b == b / 0x100 * 0x100 + b % 0x100;
  }

  lemma BytesOfSize(b: seq<byte>)
    requires |b| == 4
    ensures SizeBytes(Size(b)) == b
  {
    var x := b[0] as int * 0x100 + b[1] as int;
    var y := x * 0x100 + b[2] as int;
    Digit(b[0] as int, b[1]);
    Digit(x, b[2]);
    Digit(y, b[3]);
  }

  lemma SizeInverts(n: nat, b: seq<byte>)
    requires n < 0x1_0000_0000 && |b| == 4
    ensures Size(SizeBytes(n)) == n && SizeBytes(Size(b)) == b
  {
    hide Size, SizeBytes;
    SizeOfBytes(n);
    BytesOfSize(b);
  }

  // ---------------------------------------------------------------- demultiplexing

  /** Everything a non-TTY stream emits when the consumer takes it all. */
  function DemuxAll(b: seq<byte>): seq<Out>
    decreases |b|
  {
    if |b| < 8 then []
    else
      var size := Size(b[4..8]);
      if size == 0 then DemuxAll(b[8..])
      else if |b| < 8 + size then []
      else [Out(StreamOf(b[0]), b[8..8 + size])] + DemuxAll(b[8 + size..])
  }

  /** The response body. */
  class Body {
    const data: seq<byte>
    var pos: nat

    constructor (data: seq<byte>)
      ensures this.data == data && Left() == data && pos <= |data|
    {
      this.data := data;
      pos := 0;
    }

    /** What has not been read yet. */
    ghost function Left(): seq<byte>
      reads this
    {
      if pos <= |data| then data[pos..] else []
    }

    /** io.ReadFull: fills buf, or reports that the stream ended first. */
    method ReadFull(buf: array<byte>) returns (ok: bool)
      requires pos <= |data|
      modifies this`pos, buf
      ensures pos <= |data|
      ensures ok <==> buf.Length <= |old(Left())|
      ensures ok ==> buf[..] == old(Left())[..buf.Length] && Left() == old(Left())[buf.Length..]
    {
      var i := 0;
      while i < buf.Length && pos < |data|
        invariant 0 <= i <= buf.Length && pos == old(pos) + i <= |data|
        invariant buf[..i] == data[old(pos)..pos]
      {
        buf[i] := data[pos];
        i, pos := i + 1, pos + 1;
      }
      ok := i == buf.Length;
      assert ok ==> buf[..] == buf[..i];
    }
  }

  lemma DemuxStep(b: seq<byte>)
    requires |b| >= 8
    ensures var n := Size(b[4..8]);
            DemuxAll(b) ==
              if n == 0 then DemuxAll(b[8..])
              else if |b| < 8 + n then []
              else [Out(StreamOf(b[0]), b[8..8 + n])] + DemuxAll(b[8 + n..])
  {
  }

  /** All of `all`, or its beginning up to and including the first element the consumer refused. */
  ghost predicate Delivered(emitted: seq<Out>, all: seq<Out>, accept: nat -> bool) {
    && emitted <= all
    && (forall k: nat :: k < |emitted| - 1 ==> accept(k))
    && (emitted == all || (emitted != [] && !accept(|emitted| - 1)))
  }

  lemma AllDelivered(emitted: seq<Out>, rest: seq<Out>, all: seq<Out>, accept: nat -> bool)
    requires all == emitted + rest && rest == []
    requires forall k: nat :: k < |emitted| ==> accept(k)
    ensures Delivered(emitted, all, accept)
  {
  }

  lemma RefusedLast(emitted: seq<Out>, rest: seq<Out>, all: seq<Out>, accept: nat -> bool)
    requires all == emitted + rest && emitted != [] && !accept(|emitted| - 1)
    requires forall k: nat :: k < |emitted| - 1 ==> accept(k)
    ensures Delivered(emitted, all, accept)
  {
  }

  /** The framed branch. */
  method DemuxFrames(r: Body, accept: nat -> bool) returns (emitted: seq<Out>)
    requires r.pos <= |r.data|
    modifies r`pos
    ensures Delivered(emitted, DemuxAll(old(r.Left())), accept)
  {
    hide DemuxAll, Delivered, StartsWith, Body.Left;
    emitted := [];
    ghost var all := DemuxAll(r.Left());
    while true
      invariant r.pos <= |r.data|
      invariant all == emitted + DemuxAll(r.Left())
      invariant forall k: nat :: k < |emitted| ==> accept(k)
      decreases |r.Left()|
    {
      ghost var before := DemuxAll(r.Left());
      var more, out := NextFrame(r);
      if !more {
        AllDelivered(emitted, before, all, accept);
        return;
      }
      if out.Some? {
        Shift(all, emitted, out.value, before, DemuxAll(r.Left()));
        emitted := emitted + [out.value];
        if !accept(|emitted| - 1) {
          RefusedLast(emitted, DemuxAll(r.Left()), all, accept);
          return;
        }
      }
    }
  }

  /** b is one non-empty frame, byte by byte, and then rest: out is its payload, stderr exactly for code 2. */
  ghost predicate StartsWith(b: seq<byte>, out: Out, rest: seq<byte>) {
    && 8 <= |b|
    && var n := b[4] as int * 0x100_0000 + b[5] as int * 0x1_0000 + b[6] as int * 0x100 + b[7] as int;
       && 0 < n && 8 + n <= |b| && out.payload == b[8..8 + n] && rest == b[8 + n..]
       && (out.stream == Stderr <==> b[0] == 2)
  }

  /** One turn of the loop: header, size, payload. An empty frame yields nothing to emit. */
  method NextFrame(r: Body) returns (more: bool, out: Option<Out>)
    requires r.pos <= |r.data|
    modifies r`pos
    ensures r.pos <= |r.data| && (more ==> |r.Left()| < |old(r.Left())|)
    ensures DemuxAll(old(r.Left())) ==
            if !more then []
            else if out.Some? then [out.value] + DemuxAll(r.Left())
            else DemuxAll(r.Left())
    ensures out.Some? ==> StartsWith(old(r.Left()), out.value, r.Left())
  {
    ghost var rest := r.Left();
    var ok, size, stream := ReadHeader(r);
    if !ok {
      return false, None;
    }
    DemuxStep(rest);
    if size == 0 {
      return true, None;
    }
    var payload;
    ok, payload := ReadPayload(r, size);
    if !ok {
      return false, None;
    }
    assert rest[8..][..size] == rest[8..8 + size] && rest[8..][size..] == rest[8 + size..];
    HeaderSize(rest);
    return true, Some(Out(stream, payload));
  }

  method ReadHeader(r: Body) returns (ok: bool, size: nat, stream: Stream)
    requires r.pos <= |r.data|
    modifies r`pos
    ensures r.pos <= |r.data|
    ensures ok <==> 8 <= |old(r.Left())|
    ensures ok ==> r.Left() == old(r.Left())[8..]
    ensures ok ==> size == Size(old(r.Left())[4..8]) && stream == StreamOf(old(r.Left())[0])
  {
    var header := new byte[8];
    ok := r.ReadFull(header);
    size, stream := Size(header[4..8]), Stdout;
    if header[0] == STDERR {
      stream := Stderr;
    }
    if ok {
      assert header[..][4..8] == header[4..8] && header[..][0] == header[0];
    }
  }

  method ReadPayload(r: Body, size: nat) returns (ok: bool, payload: seq<byte>)
    requires r.pos <= |r.data|
    modifies r`pos
    ensures r.pos <= |r.data|
    ensures ok <==> size <= |old(r.Left())|
    ensures ok ==> payload == old(r.Left())[..size] && r.Left() == old(r.Left())[size..]
  {
    var buf := new byte[size];
    ok := r.ReadFull(buf);
    payload := buf[..];
  }

  // ---------------------------------------------------------------- unframed streams

  /** The scanner's buffer: a line that fills it without a line feed ends the scan. */
  const MAX_LINE: nat := 0x10_0000

  /** Everything a TTY stream emits: its lines, without line ends, up to the first that is too long. */
  function TtyAll(b: seq<byte>): seq<Out>
    decreases |b|
  {
    var n := LineLen(b);
    if b == [] || n >= MAX_LINE then []
    else [Out(Stdout, StripCR(b[..n]))] + if n == |b| then [] else TtyAll(b[n + 1..])
  }

  /** Reads up to and including the next line feed, or the end. */
  method ScanLine(r: Body) returns (line: Option<seq<byte>>)
    requires r.pos <= |r.data|
    modifies r`pos
    ensures r.pos <= |r.data| && (line.Some? ==> |r.Left()| < |old(r.Left())|)
    ensures TtyAll(old(r.Left())) ==
            if line.Some? then [Out(Stdout, StripCR(line.value))] + TtyAll(r.Left()) else []
  {
    hide TtyAll, StripCR, LineLen;
    ghost var b := r.Left();
    var n := 0;
    while n < MAX_LINE && r.pos + n < |r.data| && r.data[r.pos + n] != LF
      invariant r.pos == old(r.pos) && r.pos + n <= |r.data| && n <= MAX_LINE
      invariant LF !in b[..n]
    {
      assert b[..n + 1] == b[..n] + [r.data[r.pos + n]];
      n := n + 1;
    }
    TtyStep(b, n);
    if n == MAX_LINE || r.pos == |r.data| {
      return None;
    }
    line := Some(r.data[r.pos..r.pos + n]);
    assert line.value == b[..n];
    r.pos := if r.pos + n == |r.data| then r.pos + n else r.pos + n + 1;
    assert r.Left() == if n == |b| then [] else b[n + 1..];
  }

  lemma TtyStep(b: seq<byte>, n: nat)
    requires n <= |b| && n <= MAX_LINE && LF !in b[..n] && (n < MAX_LINE && n < |b| ==> b[n] == LF)
    ensures TtyAll(b) == if b == [] || n == MAX_LINE then []
                         else [Out(Stdout, StripCR(b[..n]))] + TtyAll(if n == |b| then [] else b[n + 1..])
  {
    hide StripCR;
    if n < MAX_LINE {
      LineLenUnique(b, n);
    } else {
      LineLenAtLeast(b, n);
    }
  }

  lemma {:induction false} LineLenAtLeast(b: seq<byte>, n: nat)
    requires n <= |b| && LF !in b[..n]
    ensures LineLen(b) >= n
  {
    if n > 0 {
      assert b[0] == b[..n][0] && b[1..][..n - 1] == b[..n][1..];
      LineLenAtLeast(b[1..], n - 1);
    }
  }

  method DemuxTty(r: Body, accept: nat -> bool) returns (emitted: seq<Out>)
    requires r.pos <= |r.data|
    modifies r`pos
    ensures Delivered(emitted, TtyAll(old(r.Left())), accept)
  {
    hide TtyAll, Delivered, StripCR, Body.Left;
    emitted := [];
    ghost var all := TtyAll(r.Left());
    while true
      invariant r.pos <= |r.data|
      invariant all == emitted + TtyAll(r.Left())
      invariant forall k: nat :: k < |emitted| ==> accept(k)
      decreases |r.Left()|
    {
      ghost var before := TtyAll(r.Left());
      var line := ScanLine(r);
      if line.None? {
        AllDelivered(emitted, before, all, accept);
        return;
      }
      var out := Out(Stdout, StripCR(line.value));
      Shift(all, emitted, out, before, TtyAll(r.Left()));
      emitted := emitted + [out];
      if !accept(|emitted| - 1) {
        RefusedLast(emitted, TtyAll(r.Left()), all, accept);
        return;
      }
    }
  }

  /** `accept(k)` is what emit call k returns: emission stops after the first refusal. */
  method Demux(r: Body, tty: bool, accept: nat -> bool) returns (emitted: seq<Out>)
    requires r.pos <= |r.data|
    modifies r`pos
    ensures Delivered(emitted, if tty then TtyAll(old(r.Left())) else DemuxAll(old(r.Left())), accept)
  {
    if tty {
      emitted := DemuxTty(r, accept);
    } else {
      emitted := DemuxFrames(r, accept);
    }
  }

  /** Lines as a terminal writes them. */
  function Terminated(lines: seq<seq<byte>>): seq<byte> {
    if lines == [] then [] else lines[0] + [10] + Terminated(lines[1..])
  }

  function AsStdout(lines: seq<seq<byte>>): seq<Out> {
    if lines == [] then [] else [Out(Stdout, lines[0])] + AsStdout(lines[1..])
  }

  predicate Scannable(line: seq<byte>) { |line| < 1048576 && (line == [] || Last(line) != 13) }

  lemma TerminatedStep(lines: seq<seq<byte>>)
    requires lines != [] && LF !in lines[0]
    ensures var rest := TtyAll(Terminated(lines[1..]));
            TtyAll(Terminated(lines)) ==
              if |lines[0]| >= MAX_LINE then [] else [Out(Stdout, StripCR(lines[0]))] + rest
  {
    hide TtyAll, StripCR;
    var b, n := Terminated(lines), |lines[0]|;
    LineLenOf(lines[0], Terminated(lines[1..]));
    assert b[..n] == lines[0] && b[n + 1..] == Terminated(lines[1..]);
    if n < MAX_LINE {
      TtyStep(b, n);
    } else {
      assert b[..MAX_LINE] == lines[0][..MAX_LINE];
      TtyStep(b, MAX_LINE);
    }
  }

  /** Of LF-free lines, exactly those come back as written that fit the buffer and do not end in CR. */
  lemma {:induction false} TtyInverts(lines: seq<seq<byte>>)
    requires forall l :: l in lines ==> LF !in l
    ensures TtyAll(Terminated(lines)) == AsStdout(lines) <==> forall l :: l in lines ==> Scannable(l)
  {
    hide TtyAll, Terminated;
    if lines == [] {
      NothingTyped(lines);
    } else {
      assert lines == [lines[0]] + lines[1..] && lines[0] in lines;
      TerminatedStep(lines);
      TtyInverts(lines[1..]);
      HeadTail(TtyAll(Terminated(lines[1..])), AsStdout(lines[1..]), StripCR(lines[0]), lines[0]);
    }
  }

  lemma HeadTail(a: seq<Out>, b: seq<Out>, x: seq<byte>, y: seq<byte>)
    ensures [Out(Stdout, x)] + a == [Out(Stdout, y)] + b <==> x == y && a == b
  {
    var s, t := [Out(Stdout, x)] + a, [Out(Stdout, y)] + b;
    assert s[0] == Out(Stdout, x) && t[0] == Out(Stdout, y) && s[1..] == a && t[1..] == b;
  }

  lemma NothingTyped(lines: seq<seq<byte>>)
    requires lines == []
    ensures TtyAll(Terminated(lines)) == [] == AsStdout(lines)
  {
  }

  // ---------------------------------------------------------------- demultiplexing inverts framing

  function Encode(f: Frame): (b: seq<byte>)
    requires WellFormed(f)
    ensures |b| == 8 + |f.payload|
  {
    [f.code] + f.pad + SizeBytes(|f.payload|) + f.payload
  }

  ghost predicate AllWellFormed(fs: seq<Frame>) { forall f :: f in fs ==> WellFormed(f) }

  function EncodeAll(fs: seq<Frame>): seq<byte>
    requires AllWellFormed(fs)
  {
    if fs == [] then []
    else
      assert fs[0] in fs && forall f :: f in fs[1..] ==> f in fs;
      Encode(fs[0]) + EncodeAll(fs[1..])
  }

  /** The non-empty payloads, those of frames with code 2 as stderr and all others as stdout. */
  function Outputs(fs: seq<Frame>): seq<Out> {
    if fs == [] then []
    else (if fs[0].payload == [] then [] else [Out(if fs[0].code == 2 then Stderr else Stdout, fs[0].payload)])
         + Outputs(fs[1..])
  }

  /** How many frames have something to show before frame k. */
  function Shown(fs: seq<Frame>, k: nat): nat
    requires k <= |fs|
  {
    if k == 0 then 0 else Shown(fs, k - 1) + if fs[k - 1].payload == [] then 0 else 1
  }

  lemma {:induction false} ShownTail(fs: seq<Frame>, k: nat)
    requires 0 < k <= |fs|
    ensures Shown(fs, k) == Shown(fs[1..], k - 1) + if fs[0].payload == [] then 0 else 1
  {
    if k > 1 { ShownTail(fs, k - 1); }
  }

  /** Each non-empty frame has its place in the output, with its payload, as stderr exactly for code 2. */
  lemma {:induction false} OutputOfFrame(fs: seq<Frame>, k: nat)
    requires k < |fs| && fs[k].payload != []
    ensures Shown(fs, k) < |Outputs(fs)|
    ensures var out := Outputs(fs)[Shown(fs, k)];
            out.payload == fs[k].payload && (out.stream == Stderr <==> fs[k].code == 2)
  {
    if k > 0 {
      OutputOfFrame(fs[1..], k - 1);
      ShownTail(fs, k);
    }
  }

  lemma {:induction false} OutputsCounted(fs: seq<Frame>)
    ensures |Outputs(fs)| == Shown(fs, |fs|)
  {
    if fs != [] {
      OutputsCounted(fs[1..]);
      ShownTail(fs, |fs|);
    }
  }

  lemma EncodedHead(f: Frame, rest: seq<byte>)
    requires WellFormed(f)
    ensures var b := Encode(f) + rest; var n := |f.payload|;
            && |b| >= 8 + n && b[0] == f.code && Size(b[4..8]) == n
            && b[8..8 + n] == f.payload && b[8 + n..] == rest
  {
    var b := Encode(f) + rest;
    assert b[4..8] == SizeBytes(|f.payload|);
    SizeInverts(|f.payload|, SizeBytes(|f.payload|));
    assert b[8..8 + |f.payload|] == f.payload;
  }

  lemma OutputsHead(fs: seq<Frame>, c: nat)
    requires fs != [] && c < |fs|
    ensures Outputs(fs[..1 + c]) == Outputs([fs[0]]) + Outputs(fs[1..][..c])
  {
    assert fs[..1 + c][0] == fs[0] && fs[..1 + c][1..] == fs[1..][..c];
    assert Outputs([fs[0]][1..]) == [];
  }

  lemma DemuxHead(f: Frame, rest: seq<byte>)
    requires WellFormed(f)
    ensures DemuxAll(Encode(f) + rest) == Outputs([f]) + DemuxAll(rest)
  {
    hide DemuxAll, Encode, Size;
    EncodedHead(f, rest);
    DemuxStep(Encode(f) + rest);
    assert Outputs([f][1..]) == [];
  }

  /** One frame on the wire, byte by byte: the code, three bytes nobody reads, the size, the payload. */
  lemma FrameOnWire(header: seq<byte>, payload: seq<byte>, rest: seq<byte>)
    requires |header| == 8
    requires |payload| == header[4] as int * 0x100_0000 + header[5] as int * 0x1_0000
                          + header[6] as int * 0x100 + header[7] as int
    ensures DemuxAll(header + payload + rest) ==
            if payload == [] then DemuxAll(rest)
            else [Out(if header[0] == 2 then Stderr else Stdout, payload)] + DemuxAll(rest)
  {
    hide DemuxAll, Size;
    var b := header + payload + rest;
    assert b[..8] == header && b[8..8 + |payload|] == payload && b[8 + |payload|..] == rest;
    HeaderSize(b);
    DemuxStep(b);
  }

  /** How many of the frames arrive complete when only the first k bytes of their encoding do. */
  function Complete(fs: seq<Frame>, k: nat): (n: nat)
    ensures n <= |fs|
  {
    if fs == [] || k < 8 + |fs[0].payload| then 0 else 1 + Complete(fs[1..], k - 8 - |fs[0].payload|)
  }

  /** A frame cut short emits nothing. */
  lemma CutFrame(f: Frame, k: nat)
    requires WellFormed(f) && k < 8 + |f.payload|
    ensures DemuxAll(Encode(f)[..k]) == []
  {
    if k >= 8 {
      var b := Encode(f)[..k];
      EncodedHead(f, []);
      assert Encode(f) + [] == Encode(f);
      assert b[4..8] == Encode(f)[4..8];
      DemuxStep(b);
    }
  }

  lemma EncodedPrefix(fs: seq<Frame>, k: nat)
    requires fs != [] && AllWellFormed(fs) && k <= |EncodeAll(fs)|
    ensures WellFormed(fs[0]) && AllWellFormed(fs[1..])
    ensures var n := 8 + |fs[0].payload|;
            && |EncodeAll(fs)| == n + |EncodeAll(fs[1..])|
            && EncodeAll(fs)[..k] == if k < n then Encode(fs[0])[..k]
                                     else Encode(fs[0]) + EncodeAll(fs[1..])[..k - n]
  {
    assert fs[0] in fs && forall f :: f in fs[1..] ==> f in fs;
  }

  lemma NothingEncoded(fs: seq<Frame>, k: nat)
    requires fs == [] && AllWellFormed(fs) && k <= |EncodeAll(fs)|
    ensures DemuxAll(EncodeAll(fs)[..k]) == Outputs(fs[..0])
  {
    assert EncodeAll(fs)[..k] == [];
  }

  lemma NoOutputs(fs: seq<Frame>)
    ensures Outputs(fs[..0]) == []
  {
  }

  /**
   Demultiplexing inverts framing, also of a truncated stream: from the first k bytes of any
   encoded frames exactly the non-empty payloads of the complete frames are emitted, in order,
   code 2 as stderr and every other code as stdout.
   */
  lemma {:induction false} DemuxInverts(fs: seq<Frame>, k: nat)
    requires AllWellFormed(fs) && k <= |EncodeAll(fs)|
    ensures DemuxAll(EncodeAll(fs)[..k]) == Outputs(fs[..Complete(fs, k)])
  {
    hide DemuxAll, Encode, EncodeAll, Outputs, AllWellFormed, WellFormed;
    if fs == [] {
      NothingEncoded(fs, k);
    } else {
      EncodedPrefix(fs, k);
      var n := 8 + |fs[0].payload|;
      if k < n {
        CutFrame(fs[0], k);
        NoOutputs(fs);
      } else {
        DemuxHead(fs[0], EncodeAll(fs[1..])[..k - n]);
        DemuxInverts(fs[1..], k - n);
        OutputsHead(fs, Complete(fs[1..], k - n));
      }
    }
  }

  lemma {:induction false} CompleteAll(fs: seq<Frame>)
    requires AllWellFormed(fs)
    ensures Complete(fs, |EncodeAll(fs)|) == |fs|
  {
    if fs != [] {
      assert fs[0] in fs && forall f :: f in fs[1..] ==> f in fs;
      CompleteAll(fs[1..]);
    }
  }

  /** The whole stream gives back every non-empty payload. */
  lemma DemuxInvertsWhole(fs: seq<Frame>)
    requires AllWellFormed(fs)
    ensures DemuxAll(EncodeAll(fs)) == Outputs(fs)
  {
    CompleteAll(fs);
    DemuxInverts(fs, |EncodeAll(fs)|);
    assert EncodeAll(fs)[..|EncodeAll(fs)|] == EncodeAll(fs) && fs[..|fs|] == fs;
  }

  lemma HeaderKept(a: seq<byte>, b: seq<byte>)
    requires |a| >= 8
    ensures (a + b)[4..8] == a[4..8] && (a + b)[0] == a[0]
  {
  }

  lemma PayloadKept(a: seq<byte>, b: seq<byte>, n: nat)
    requires 8 + n <= |a|
    ensures (a + b)[8..8 + n] == a[8..8 + n] && (a + b)[8 + n..] == a[8 + n..] + b
  {
  }

  lemma PrefixCons<T>(x: seq<T>, y: seq<T>, z: seq<T>)
    requires y <= z
    ensures x + y <= x + z
  {
  }

  /** For arbitrary bytes, more input only ever adds output at the end. */
  lemma {:induction false} DemuxMonotone(a: seq<byte>, b: seq<byte>)
    ensures DemuxAll(a) <= DemuxAll(a + b)
    decreases |a|
  {
    hide DemuxAll, Size;
    if |a| < 8 {
      ShortOfHeader(a);
    } else {
      var n := Size(a[4..8]);
      HeaderKept(a, b);
      DemuxStep(a);
      DemuxStep(a + b);
      if 8 + n <= |a| {
        PayloadKept(a, b, n);
        DemuxMonotone(a[8 + n..], b);
        PrefixCons([Out(StreamOf(a[0]), a[8..8 + n])], DemuxAll(a[8 + n..]), DemuxAll(a[8 + n..] + b));
      }
    }
  }

  lemma ShortOfHeader(b: seq<byte>)
    requires |b| < 8
    ensures DemuxAll(b) == []
  {
  }

  // ---------------------------------------------------------------- lines

  /** strings.TrimRight with a one-character cutset. */
  function TrimRight(b: seq<byte>, c: byte): (r: seq<byte>)
    ensures r <= b
    ensures r != [] ==> Last(r) != c
    ensures forall i :: |r| <= i < |b| ==> b[i] == c
  {
    if b != [] && Last(b) == c then TrimRight(Front(b), c) else b
  }

  /** strings.Split on LF. */
  function Split(b: seq<byte>): (r: seq<seq<byte>>)
    ensures r != []
    decreases |b|
  {
    var i := LineLen(b);
    if i == |b| then [b] else [b[..i]] + Split(b[i + 1..])
  }

  function TrimAll(lines: seq<seq<byte>>): (r: seq<seq<byte>>)
    ensures |r| == |lines|
    ensures forall i :: 0 <= i < |r| ==> r[i] == TrimRight(lines[i], CR)
  {
    if lines == [] then [] else [TrimRight(lines[0], CR)] + TrimAll(lines[1..])
  }

  function LinesOf(payload: seq<byte>): seq<seq<byte>> {
    var text := TrimRight(payload, LF);
    if text == [] then [] else TrimAll(Split(text))
  }

  /** Splits a payload into lines, trimming each in place. */
  method SplitLines(payload: seq<byte>) returns (lines: seq<seq<byte>>)
    ensures lines == LinesOf(payload)
  {
    var text := TrimRight(payload, LF);
    if text == [] {
      return [];
    }
    lines := Split(text);
    for i := 0 to |lines|
      invariant |lines| == |Split(text)|
      invariant forall k :: 0 <= k < i ==> lines[k] == TrimRight(Split(text)[k], CR)
      invariant forall k :: i <= k < |lines| ==> lines[k] == Split(text)[k]
    {
      lines := lines[i := TrimRight(lines[i], CR)];
    }
    assert lines == TrimAll(Split(text));
  }

  function Join(lines: seq<seq<byte>>): seq<byte>
    requires lines != []
  {
    if |lines| == 1 then lines[0] else lines[0] + [LF] + Join(lines[1..])
  }

  ghost predicate NoLF(lines: seq<seq<byte>>) { forall l :: l in lines ==> LF !in l }

  lemma {:induction false} SplitJoin(lines: seq<seq<byte>>)
    requires lines != [] && NoLF(lines)
    ensures Split(Join(lines)) == lines
  {
    assert lines[0] in lines;
    if |lines| == 1 {
      LineLenOf(lines[0], []);
    } else {
      var rest := Join(lines[1..]);
      LineLenOf(lines[0], rest);
      assert NoLF(lines[1..]) by { assert forall l :: l in lines[1..] ==> l in lines; }
      SplitJoin(lines[1..]);
      var b := Join(lines);
      assert b[..|lines[0]|] == lines[0] && b[|lines[0]| + 1..] == rest;
    }
  }

  lemma {:induction false} JoinSplit(b: seq<byte>)
    ensures Join(Split(b)) == b && NoLF(Split(b))
    decreases |b|
  {
    var i := LineLen(b);
    if i < |b| {
      JoinSplit(b[i + 1..]);
      assert Split(b)[1..] == Split(b[i + 1..]);
      assert b == b[..i] + [LF] + b[i + 1..];
    } else {
      assert b[..i] == b;
    }
  }

  lemma {:induction false} JoinLast(lines: seq<seq<byte>>)
    requires lines != []
    ensures Last(lines) != [] ==> Join(lines) != [] && Last(Join(lines)) == Last(Last(lines))
    ensures Last(lines) == [] && |lines| > 1 ==> Join(lines) == Join(Front(lines)) + [LF]
  {
    if |lines| > 1 {
      JoinLast(lines[1..]);
      assert Last(lines[1..]) == Last(lines);
      if |lines| > 2 { assert Front(lines)[1..] == Front(lines[1..]); }
      else { assert Join(Front(lines)) == lines[0]; }
    }
  }

  function Repeat(c: byte, k: nat): (r: seq<byte>)
    ensures |r| == k && forall i :: 0 <= i < k ==> r[i] == c
  {
    seq(k, _ => c)
  }

  /** Trailing line feeds do not matter. */
  lemma {:induction false} TrimRepeat(b: seq<byte>, k: nat)
    ensures TrimRight(b + Repeat(LF, k), LF) == TrimRight(b, LF)
  {
    if k > 0 {
      TrimRepeat(b, k - 1);
      assert Front(b + Repeat(LF, k)) == b + Repeat(LF, k - 1);
    } else {
      assert b + Repeat(LF, 0) == b;
    }
  }

  predicate Clean(line: seq<byte>) { line == [] || Last(line) != CR }

  /** Dropping the trailing empty lines first leaves at most that many lines. */
  lemma {:induction false} FewerLines(lines: seq<seq<byte>>)
    requires lines != [] && NoLF(lines) && Last(lines) == []
    ensures |LinesOf(Join(lines))| < |lines|
  {
    if |lines| == 1 {
      assert Join(lines) == [];
    } else {
      var front := Front(lines);
      JoinLast(lines);
      assert NoLF(front) by { assert forall l :: l in front ==> l in lines; }
      assert Front(Join(lines)) == Join(front);
      assert TrimRight(Join(lines), LF) == TrimRight(Join(front), LF);
      if Last(front) == [] {
        FewerLines(front);
      } else {
        JoinLast(front);
        assert Last(Last(front)) in Last(front) && Last(front) in front;
        SplitJoin(front);
      }
    }
  }

  lemma TrimmedFixed(lines: seq<seq<byte>>)
    ensures TrimAll(lines) == lines <==> forall l :: l in lines ==> Clean(l)
  {
    if forall l :: l in lines ==> Clean(l) {
      assert forall i :: 0 <= i < |lines| ==> lines[i] in lines;
    }
    if TrimAll(lines) == lines {
      forall l | l in lines ensures Clean(l) {
        var i :| 0 <= i < |lines| && lines[i] == l;
        assert TrimAll(lines)[i] == TrimRight(l, CR);
      }
    }
  }

  /** Lines joined with a non-empty last one survive trimming and splitting as they are. */
  lemma JoinedText(lines: seq<seq<byte>>)
    requires lines != [] && NoLF(lines) && Last(lines) != []
    ensures LinesOf(Join(lines)) == TrimAll(lines)
  {
    JoinLast(lines);
    assert Last(Last(lines)) in Last(lines) && Last(lines) in lines;
    assert TrimRight(Join(lines), LF) == Join(lines);
    SplitJoin(lines);
  }

  /**
   Splitting inverts joining: of LF-free lines joined with LF, with any number of LFs after
   them, the same lines come back exactly when the last is not empty and none ends in CR.
   */
  lemma SplitInvertsJoin(lines: seq<seq<byte>>, k: nat)
    requires lines != [] && NoLF(lines)
    ensures LinesOf(Join(lines) + Repeat(LF, k)) == lines <==>
            Last(lines) != [] && forall l :: l in lines ==> Clean(l)
  {
    TrimRepeat(Join(lines), k);
    assert LinesOf(Join(lines) + Repeat(LF, k)) == LinesOf(Join(lines));
    hide LinesOf, Join, TrimAll, Clean, TrimRight;
    if Last(lines) == [] {
      FewerLines(lines);
    } else {
      JoinedText(lines);
      TrimmedFixed(lines);
    }
  }

  /** Whatever the payload, no line that comes out holds a line feed or ends in a carriage return. */
  lemma LinesAreClean(payload: seq<byte>)
    ensures forall l :: l in LinesOf(payload) ==> 10 !in l && (l == [] || Last(l) != 13)
  {
    var text := TrimRight(payload, LF);
    if text != [] {
      JoinSplit(text);
      forall l | l in LinesOf(payload) ensures LF !in l && Clean(l) {
        var i :| 0 <= i < |Split(text)| && l == TrimRight(Split(text)[i], CR);
        assert Split(text)[i] in Split(text);
      }
    }
  }

  predicate OnlyCR(line: seq<byte>) { forall i :: 0 <= i < |line| ==> line[i] == CR }

  predicate CRsBetween(b: seq<byte>, i: nat, j: nat)
    requires i <= j <= |b|
  {
    forall k :: i <= k < j ==> b[k] == CR
  }

  /** A line, from the start or after an LF up to the end or an LF, that is empty or all CRs. */
  predicate CRLine(b: seq<byte>, i: nat, j: nat) {
    i <= j <= |b| && (i == 0 || b[i - 1] == LF) && (j == |b| || b[j] == LF) && CRsBetween(b, i, j)
  }

  ghost predicate HasCRLine(b: seq<byte>) { exists i: nat, j: nat :: CRLine(b, i, j) }

  lemma {:induction false} LineLenAtMost(b: seq<byte>, k: nat)
    requires k < |b| && b[k] == LF
    ensures LineLen(b) <= k
  {
    if k > 0 { LineLenAtMost(b[1..], k - 1); }
  }

  lemma CRsShift(b: seq<byte>, n: nat, i: nat, j: nat)
    requires n <= |b| && i <= j <= |b| - n
    ensures CRsBetween(b[n..], i, j) <==> CRsBetween(b, i + n, j + n)
  {
    if CRsBetween(b[n..], i, j) {
      forall k | i + n <= k < j + n ensures b[k] == CR { assert b[n..][k - n] == CR; }
    }
  }

  lemma StartingCRLine(b: seq<byte>, j: nat)
    requires CRLine(b, 0, j)
    ensures OnlyCR(b[..LineLen(b)])
  {
    hide LineLen;
    assert LF !in b[..j];
    LineLenUnique(b, j);
  }

  lemma CRLineIn(b: seq<byte>, m: nat, i: nat, j: nat)
    requires m <= |b| && i <= j <= |b| - m && (m == 0 || b[m - 1] == LF)
    ensures CRLine(b[m..], i, j) <==> CRLine(b, m + i, m + j)
  {
    hide CRsBetween;
    var c := b[m..];
    CRsShift(b, m, i, j);
    assert i > 0 ==> c[i - 1] == b[m + i - 1];
    assert j < |c| ==> c[j] == b[m + j];
  }

  lemma CRLineBounds(b: seq<byte>, i: nat, j: nat)
    requires CRLine(b, i, j)
    ensures i <= j <= |b| && (i > 0 ==> b[i - 1] == LF)
  {
  }

  lemma FirstLF(b: seq<byte>)
    ensures LineLen(b) < |b| ==> b[LineLen(b)] == LF
  {
  }

  lemma LastCRLine(b: seq<byte>, i: nat, j: nat)
    requires i > 0 && CRLine(b, i, j)
    ensures var n := LineLen(b); n < i <= j && n < |b| && CRLine(b[n + 1..], i - n - 1, j - n - 1)
  {
    hide LineLen, CRLine;
    CRLineBounds(b, i, j);
    LineLenAtMost(b, i - 1);
    FirstLF(b);
    var m := LineLen(b) + 1;
    CRLineIn(b, m, i - m, j - m);
  }

  lemma LaterCRLine(b: seq<byte>, i: nat, j: nat)
    requires LineLen(b) < |b| && CRLine(b[LineLen(b) + 1..], i, j)
    ensures CRLine(b, i + LineLen(b) + 1, j + LineLen(b) + 1)
  {
    hide LineLen, CRLine;
    FirstLF(b);
    CRLineBounds(b[LineLen(b) + 1..], i, j);
    CRLineIn(b, LineLen(b) + 1, i, j);
  }

  lemma CRLineStep(b: seq<byte>)
    ensures var n := LineLen(b);
            HasCRLine(b) <==> OnlyCR(b[..n]) || (n < |b| && HasCRLine(b[n + 1..]))
  {
    hide CRLine, OnlyCR, LineLen;
    var n := LineLen(b);
    if i: nat, j: nat :| CRLine(b, i, j) {
      if i == 0 {
        StartingCRLine(b, j);
      } else {
        LastCRLine(b, i, j);
        var i', j': nat := i - n - 1, j - n - 1;
        assert CRLine(b[n + 1..], i', j');
      }
    }
    if OnlyCR(b[..n]) { FirstIsCRLine(b); }
    if n < |b| && HasCRLine(b[n + 1..]) {
      var i: nat, j: nat :| CRLine(b[n + 1..], i, j);
      LaterCRLine(b, i, j);
    }
  }

  lemma FirstIsCRLine(b: seq<byte>)
    requires OnlyCR(b[..LineLen(b)])
    ensures CRLine(b, 0, LineLen(b))
  {
    hide LineLen;
    forall k | 0 <= k < LineLen(b) ensures b[k] == CR { assert b[..LineLen(b)][k] == CR; }
  }

  ghost predicate SomeOnlyCR(lines: seq<seq<byte>>) { exists l :: l in lines && OnlyCR(l) }

  lemma SomeOnlyCRCons(x: seq<byte>, rest: seq<seq<byte>>)
    ensures SomeOnlyCR([x] + rest) <==> OnlyCR(x) || SomeOnlyCR(rest)
  {
    if SomeOnlyCR(rest) {
      var l :| l in rest && OnlyCR(l);
      assert l in [x] + rest;
    }
    if OnlyCR(x) { assert x in [x] + rest; }
  }

  lemma SplitStep(b: seq<byte>)
    ensures var i := LineLen(b);
            Split(b) == if i == |b| then [b[..i]] + [] else [b[..i]] + Split(b[i + 1..])
  {
    hide LineLen;
    assert b[..|b|] == b;
  }

  lemma {:induction false} SplitCRLines(b: seq<byte>)
    ensures SomeOnlyCR(Split(b)) <==> HasCRLine(b)
    decreases |b|
  {
    hide Split, LineLen, SomeOnlyCR, HasCRLine, OnlyCR;
    var i := LineLen(b);
    SplitStep(b);
    CRLineStep(b);
    if i < |b| {
      SplitCRLines(b[i + 1..]);
      SomeOnlyCRCons(b[..i], Split(b[i + 1..]));
    } else {
      SomeOnlyCRCons(b[..i], []);
      NoneOnlyCR();
    }
  }

  lemma NoneOnlyCR()
    ensures !SomeOnlyCR([])
  {
  }

  /**
   Positions i and j of a payload enclose a line that is empty or all CRs, and either that line
   is not empty or something other than LFs follows it.
   */
  ghost predicate BlankSpan(payload: seq<byte>, i: nat, j: nat) {
    CRLine(payload, i, j) && (i < j || exists k :: j < k < |payload| && payload[k] != LF)
  }

  lemma SpanInText(payload: seq<byte>, i: nat, j: nat)
    requires BlankSpan(payload, i, j)
    ensures TrimRight(payload, LF) != [] && CRLine(TrimRight(payload, LF), i, j)
  {
    hide TrimRight;
    var text := TrimRight(payload, LF);
    assert i < j ==> payload[j - 1] == CR;
    assert j <= |text| && text != [];
  }

  lemma SpanInPayload(payload: seq<byte>, i: nat, j: nat)
    requires TrimRight(payload, LF) != [] && CRLine(TrimRight(payload, LF), i, j)
    ensures BlankSpan(payload, i, j)
  {
    hide TrimRight;
    var text := TrimRight(payload, LF);
    assert payload[|text| - 1] != LF;
  }

  lemma TrimmedBlank(lines: seq<seq<byte>>)
    ensures [] in TrimAll(lines) <==> SomeOnlyCR(lines)
  {
    if SomeOnlyCR(lines) {
      var l :| l in lines && OnlyCR(l);
      var i :| 0 <= i < |lines| && lines[i] == l;
      assert TrimAll(lines)[i] == TrimRight(l, CR) == [];
    }
    if [] in TrimAll(lines) {
      var i :| 0 <= i < |lines| && TrimAll(lines)[i] == [];
      assert OnlyCR(lines[i]) && lines[i] in lines;
    }
  }

  /**
   The splitter does not drop blank lines inside a payload: an empty line comes out exactly
   when the payload has a line that is empty or all CRs, trailing empty ones aside.
   */
  lemma BlankLinesSurvive(payload: seq<byte>)
    ensures [] in LinesOf(payload) <==> exists i: nat, j: nat :: BlankSpan(payload, i, j)
  {
    hide TrimAll, Split, CRLine, BlankSpan, TrimRight;
    var text := TrimRight(payload, LF);
    if text != [] {
      TrimmedBlank(Split(text));
      SplitCRLines(text);
    }
    if i: nat, j: nat :| BlankSpan(payload, i, j) { SpanInText(payload, i, j); }
    if text != [] && HasCRLine(text) {
      var i: nat, j: nat :| CRLine(text, i, j);
      SpanInPayload(payload, i, j);
    }
  }

  /** "a", an empty line, "b": the empty line is kept. */
  lemma BlankLineExample()
    ensures LinesOf([97, LF, LF, 98]) == [[97], [], [98]]
  {
    var lines: seq<seq<byte>> := [[97], [], [98]];
    assert Join(lines[1..][1..]) == [98];
    assert Join(lines[1..]) == [LF, 98];
    assert Join(lines) == [97, LF, LF, 98];
    JoinedText(lines);
    TrimmedFixed(lines);
  }
}
