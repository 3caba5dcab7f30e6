/**
 Server-sent events from end to end: the agent's writer and the desktop's incremental
 reader. Bytes only; UTF-8 replacement and JSON decoding are parameters.
 */
module Sse {
  import opened Common

  const DATA: seq<byte> := [100, 97, 116, 97, 58, 32]   // "data: "

  // ---------------------------------------------------------------- the writer

  /** One event as it appears on the wire. */
  function Event(payload: seq<byte>): seq<byte> {
    DATA + payload + [LF, LF]
  }

  function Events(payloads: seq<seq<byte>>): seq<byte> {
    if payloads == [] then [] else Event(payloads[0]) + Events(payloads[1..])
  }

  class Response {
    var body: seq<byte>

    constructor ()
      ensures body == []
    {
      body := [];
    }

    method Write(b: seq<byte>)
      modifies this
      ensures body == old(body) + b
    {
      body := body + b;
    }

    /** `encoded` is the JSON encoder's result; nothing is written when it failed. */
    method WriteSSE(encoded: Option<seq<byte>>)
      modifies this
      ensures body == old(body) + if encoded.Some? then Event(encoded.value) else []
      ensures encoded.Some? ==> body == old(body) + ([100, 97, 116, 97, 58, 32] + encoded.value + [10, 10])
    {
      if encoded.None? {
        assert old(body) + [] == old(body);
        return;
      }
      Write(DATA);
      Write(encoded.value);
      Write([LF, LF]);
      assert body == old(body) + Event(encoded.value);
    }
  }

  // ---------------------------------------------------------------- splitting into frames

  predicate BlankAt(b: seq<byte>, i: int) {
    0 <= i && i + 1 < |b| && b[i] == LF && b[i + 1] == LF
  }

  /** The first position of a blank-line delimiter. */
  function FindBlank(b: seq<byte>, from: nat := 0): (r: Option<nat>)
    requires from <= |b|
    ensures r.Some? ==> from <= r.value && BlankAt(b, r.value)
    ensures r.Some? ==> forall i :: from <= i < r.value ==> !BlankAt(b, i)
    ensures r.None? ==> forall i :: from <= i ==> !BlankAt(b, i)
    decreases |b| - from
  {
    if from == |b| then None
    else if BlankAt(b, from) then Some(from)
    else FindBlank(b, from + 1)
  }

  function Frames(b: seq<byte>): seq<seq<byte>>
    decreases |b|
  {
    match FindBlank(b)
    case None => []
    case Some(i) => [b[..i + 2]] + Frames(b[i + 2..])
  }

  function Rest(b: seq<byte>): seq<byte>
    decreases |b|
  {
    match FindBlank(b)
    case None => b
    case Some(i) => Rest(b[i + 2..])
  }

  lemma FramesStep(b: seq<byte>, i: nat)
    requires FindBlank(b) == Some(i)
    ensures Frames(b) == [b[..i + 2]] + Frames(b[i + 2..]) && Rest(b) == Rest(b[i + 2..])
  {
  }

  lemma FindUnique(b: seq<byte>, i: nat)
    requires BlankAt(b, i) && forall j :: 0 <= j < i ==> !BlankAt(b, j)
    ensures FindBlank(b) == Some(i)
  {
  }

  /** A delimiter found in a prefix is the first one of the whole. */
  lemma FindInPrefix(a: seq<byte>, b: seq<byte>)
    requires FindBlank(a).Some?
    ensures FindBlank(a + b) == FindBlank(a)
  {
    var i := FindBlank(a).value;
    assert (a + b)[i] == a[i] && (a + b)[i + 1] == a[i + 1];
    forall j | 0 <= j < i ensures !BlankAt(a + b, j) {
      assert (a + b)[j] == a[j] && (a + b)[j + 1] == a[j + 1];
      assert !BlankAt(a, j);
    }
    FindUnique(a + b, i);
  }

  lemma FirstFrame(a: seq<byte>, b: seq<byte>, i: nat)
    requires FindBlank(a) == Some(i)
    ensures Frames(a + b) == [a[..i + 2]] + Frames(a[i + 2..] + b) && Rest(a + b) == Rest(a[i + 2..] + b)
  {
    hide Frames, Rest;
    FindInPrefix(a, b);
    FramesStep(a + b, i);
    assert (a + b)[..i + 2] == a[..i + 2] && (a + b)[i + 2..] == a[i + 2..] + b;
  }

  /** Splitting what has arrived, then splitting the leftover with what comes next, loses nothing. */
  lemma {:induction false} SplitOnArrival(a: seq<byte>, b: seq<byte>)
    ensures Frames(a + b) == Frames(a) + Frames(Rest(a) + b)
    ensures Rest(a + b) == Rest(Rest(a) + b)
    decreases |a|
  {
    match FindBlank(a)
    case None =>
      assert Frames(a) == [];
    case Some(i) =>
      hide Frames, Rest, FindBlank;
      var f, rest := a[..i + 2], a[i + 2..];
      FramesStep(a, i);
      FirstFrame(a, b, i);
      SplitOnArrival(rest, b);
      Associative([f], Frames(rest), Frames(Rest(rest) + b));
  }

  /** A frame: it ends in its first blank-line delimiter. */
  predicate IsFrame(f: seq<byte>) {
    |f| >= 2 && FindBlank(f) == Some(|f| - 2)
  }

  lemma NoFrames(b: seq<byte>)
    requires FindBlank(b).None?
    ensures Frames(b) == [] && Rest(b) == b
  {
  }

  lemma FlattenCons<T>(x: seq<T>, xs: seq<seq<T>>)
    ensures Flatten([x] + xs) == x + Flatten(xs)
  {
    assert ([x] + xs)[1..] == xs;
  }

  lemma FirstIsFrame(b: seq<byte>, i: nat)
    requires FindBlank(b) == Some(i)
    ensures i + 2 <= |b| && IsFrame(b[..i + 2])
  {
    hide FindBlank;
    var f := b[..i + 2];
    forall j | 0 <= j < i ensures !BlankAt(f, j) {
      assert f[j] == b[j] && f[j + 1] == b[j + 1];
      assert !BlankAt(b, j);
    }
    FindUnique(f, i);
  }

  /**
   Frames and leftover are a partition of the bytes, every frame ends at its first
   delimiter, and the leftover holds none.
   */
  lemma {:induction false} FramesPartition(b: seq<byte>)
    ensures Flatten(Frames(b)) + Rest(b) == b
    ensures forall f :: f in Frames(b) ==> IsFrame(f)
    ensures FindBlank(Rest(b)).None?
    decreases |b|
  {
    hide Frames, Rest, FindBlank, IsFrame;
    match FindBlank(b)
    case None => NoFrames(b);
    case Some(i) =>
      var f, tail := b[..i + 2], b[i + 2..];
      FramesPartition(tail);
      FramesStep(b, i);
      FirstIsFrame(b, i);
      FlattenCons(f, Frames(tail));
      Associative(f, Flatten(Frames(tail)), Rest(tail));
  }

  /** The delimiter is two line feeds: frames end in them and hold them nowhere else. */
  lemma FrameBytes(b: seq<byte>)
    ensures forall f :: f in Frames(b) ==>
              |f| >= 2 && f[|f| - 2] == 10 && f[|f| - 1] == 10
              && !exists i :: 0 <= i < |f| - 2 && f[i] == 10 == f[i + 1]
    ensures !exists i :: 0 <= i < |Rest(b)| - 1 && Rest(b)[i] == 10 == Rest(b)[i + 1]
  {
    hide Frames, Rest, FindBlank;
    FramesPartition(b);
    forall f | f in Frames(b)
      ensures |f| >= 2 && f[|f| - 2] == 10 && f[|f| - 1] == 10
      ensures !exists i :: 0 <= i < |f| - 2 && f[i] == 10 == f[i + 1]
    {
      assert IsFrame(f) && BlankAt(f, |f| - 2);
      forall i | 0 <= i < |f| - 2 ensures !(f[i] == 10 == f[i + 1]) { assert !BlankAt(f, i); }
    }
    forall i | 0 <= i < |Rest(b)| - 1 ensures !(Rest(b)[i] == 10 == Rest(b)[i + 1]) { assert !BlankAt(Rest(b), i); }
  }

  /** A frame at the front is the first one cut off. */
  lemma FrameInFront(f: seq<byte>, tail: seq<byte>)
    requires IsFrame(f)
    ensures Frames(f + tail) == [f] + Frames(tail) && Rest(f + tail) == Rest(tail)
  {
    FindInPrefix(f, tail);
    FramesStep(f + tail, |f| - 2);
    assert (f + tail)[..|f|] == f && (f + tail)[|f|..] == tail;
  }

  /** The partition is the only one of that shape. */
  lemma {:induction false} FramesUnique(frames: seq<seq<byte>>, rest: seq<byte>)
    requires forall f :: f in frames ==> IsFrame(f)
    requires FindBlank(rest).None?
    ensures Frames(Flatten(frames) + rest) == frames && Rest(Flatten(frames) + rest) == rest
  {
    if frames == [] {
      assert Flatten(frames) + rest == rest;
    } else {
      hide Frames, Rest, FindBlank, IsFrame;
      var f, tail := frames[0], Flatten(frames[1..]) + rest;
      assert f in frames && forall g :: g in frames[1..] ==> g in frames;
      assert Flatten(frames) + rest == f + tail;
      FrameInFront(f, tail);
      FramesUnique(frames[1..], rest);
      assert frames == [f] + frames[1..];
    }
  }

  // ---------------------------------------------------------------- parsing one frame

  /** What parse_sse makes of a frame: a value, no data line, or a decoding error. */
  datatype Parsed<+T> = Value(v: T) | NoData | Bad

  /** str::lines: a line ends at LF or CR LF; an unterminated last line keeps its CR. */
  function Lines(text: seq<byte>): seq<seq<byte>>
    decreases |text|
  {
    if text == [] then []
    else
      var i := LineLen(text);
      if i == |text| then [text] else [StripCR(text[..i])] + Lines(text[i + 1..])
  }

  /** The first line that carries data, without its prefix. */
  function DataLine(lines: seq<seq<byte>>): Option<seq<byte>> {
    if lines == [] then None
    else if DATA <= lines[0] then Some(lines[0][|DATA|..])
    else DataLine(lines[1..])
  }

  /** The data is that of the first line that starts with "data: ", and all of the line after that. */
  lemma {:induction false} FirstDataLine(lines: seq<seq<byte>>, p: seq<byte>)
    ensures DataLine(lines) == Some(p) <==>
            exists i :: 0 <= i < |lines| && lines[i] == [100, 97, 116, 97, 58, 32] + p
                        && forall j :: 0 <= j < i ==> !([100, 97, 116, 97, 58, 32] <= lines[j])
    ensures DataLine(lines).None? <==> forall j :: 0 <= j < |lines| ==> !([100, 97, 116, 97, 58, 32] <= lines[j])
  {
    if lines != [] {
      FirstDataLine(lines[1..], p);
      var first, rest := lines[0], lines[1..];
      if DATA <= first {
        assert first == DATA + first[|DATA|..];
        assert (DATA + p)[|DATA|..] == p;
      } else {
        if i :| 0 <= i < |rest| && rest[i] == DATA + p && forall j :: 0 <= j < i ==> !(DATA <= rest[j]) {
          assert lines[i + 1] == DATA + p && forall j :: 0 <= j < i + 1 ==> !(DATA <= lines[j]);
        }
        if i :| 0 <= i < |lines| && lines[i] == DATA + p && forall j :: 0 <= j < i ==> !(DATA <= lines[j]) {
          assert i > 0 && rest[i - 1] == DATA + p;
          assert forall j :: 0 <= j < i - 1 ==> rest[j] == lines[j + 1];
        }
        assert forall j :: 0 <= j < |rest| ==> rest[j] == lines[j + 1];
      }
    }
  }

  function ParseSse<T>(frame: seq<byte>, text: seq<byte> -> seq<byte>, decode: seq<byte> -> Option<T>): Parsed<T> {
    match DataLine(Lines(text(frame)))
    case None => NoData
    case Some(json) => (match decode(json) case Some(v) => Value(v) case None => Bad)
  }

  // ---------------------------------------------------------------- the reader

  datatype Item<+T> = Ok(v: T) | Err

  /** The items a list of frames yields; the stream ends at the first error. */
  function Items<T>(frames: seq<seq<byte>>, text: seq<byte> -> seq<byte>, decode: seq<byte> -> Option<T>)
    : seq<Item<T>>
  {
    if frames == [] then []
    else match ParseSse(frames[0], text, decode)
         case Value(v) => [Ok(v)] + Items(frames[1..], text, decode)
         case NoData => Items(frames[1..], text, decode)
         case Bad => [Err]
  }

  predicate Broken<T>(frames: seq<seq<byte>>, text: seq<byte> -> seq<byte>, decode: seq<byte> -> Option<T>) {
    frames != [] && (ParseSse(frames[0], text, decode).Bad? || Broken(frames[1..], text, decode))
  }

  lemma {:induction false} ItemsAppend<T>(a: seq<seq<byte>>, b: seq<seq<byte>>,
                                          text: seq<byte> -> seq<byte>, decode: seq<byte> -> Option<T>)
    ensures Broken(a + b, text, decode) <==> Broken(a, text, decode) || Broken(b, text, decode)
    ensures Items(a + b, text, decode) ==
            Items(a, text, decode) + if Broken(a, text, decode) then [] else Items(b, text, decode)
  {
    if a == [] {
      assert a + b == b;
    } else {
      assert (a + b)[0] == a[0] && (a + b)[1..] == a[1..] + b;
      ItemsAppend(a[1..], b, text, decode);
    }
  }

  /** The bytes that arrive before the transport fails, and whether it does. */
  function Received(chunks: seq<Option<seq<byte>>>): seq<byte> {
    if chunks == [] || chunks[0].None? then [] else chunks[0].value + Received(chunks[1..])
  }

  function Fails(chunks: seq<Option<seq<byte>>>): bool {
    None in chunks
  }

  /**
   The reader's promise: what it yields depends on the bytes received before a transport
   error, never on how they were cut into chunks.
   */
  function Session<T>(bytes: seq<byte>, fails: bool, text: seq<byte> -> seq<byte>, decode: seq<byte> -> Option<T>)
    : seq<Item<T>>
  {
    var frames := Frames(bytes);
    Items(frames, text, decode) + if fails && !Broken(frames, text, decode) then [Err] else []
  }

  /** Some frame cannot be decoded. */
  ghost predicate SomeBad<T>(frames: seq<seq<byte>>, text: seq<byte> -> seq<byte>, decode: seq<byte> -> Option<T>) {
    exists k :: 0 <= k < |frames| && ParseSse(frames[k], text, decode).Bad?
  }

  lemma SomeBadStep<T>(frames: seq<seq<byte>>, text: seq<byte> -> seq<byte>, decode: seq<byte> -> Option<T>)
    requires frames != []
    ensures SomeBad(frames, text, decode) <==>
            ParseSse(frames[0], text, decode).Bad? || SomeBad(frames[1..], text, decode)
  {
    hide ParseSse;
    assert forall k :: 0 <= k < |frames[1..]| ==> frames[1..][k] == frames[k + 1];
    if k :| 0 <= k < |frames| && ParseSse(frames[k], text, decode).Bad? {
      assert k > 0 ==> frames[1..][k - 1] == frames[k];
    }
    if k :| 0 <= k < |frames[1..]| && ParseSse(frames[1..][k], text, decode).Bad? {
      assert ParseSse(frames[k + 1], text, decode).Bad?;
    }
  }

  lemma {:induction false} ItemsShape<T>(frames: seq<seq<byte>>, text: seq<byte> -> seq<byte>,
                                         decode: seq<byte> -> Option<T>)
    ensures Broken(frames, text, decode) <==> SomeBad(frames, text, decode)
    ensures var items := Items(frames, text, decode);
            if Broken(frames, text, decode) then items != [] && Last(items) == Err && Err !in Front(items)
            else Err !in items
  {
    hide ParseSse;
    if frames != [] {
      ItemsShape(frames[1..], text, decode);
      SomeBadStep(frames, text, decode);
      var rest := Items(frames[1..], text, decode);
      match ParseSse(frames[0], text, decode)
      case Value(v) =>
        if Broken(frames[1..], text, decode) { assert Front([Ok(v)] + rest) == [Ok(v)] + Front(rest); }
      case _ =>
    }
  }

  /**
   A session reports an error exactly if the transport failed or some frame could not be
   decoded; the error is its last item, and it is the only one.
   */
  lemma ErrorEndsSession<T>(bytes: seq<byte>, fails: bool, text: seq<byte> -> seq<byte>, decode: seq<byte> -> Option<T>)
    ensures var items := Session(bytes, fails, text, decode);
            var bad := SomeBad(Frames(bytes), text, decode);
            && (Err in items <==> fails || bad)
            && (fails || bad ==> items != [] && Last(items) == Err && Err !in Front(items))
  {
    hide Items, Broken, Frames, SomeBad;
    var frames := Frames(bytes);
    ItemsShape(frames, text, decode);
    var items := Items(frames, text, decode);
    if fails && !Broken(frames, text, decode) {
      ErrAppended(items);
    } else {
      assert items + [] == items;
    }
  }

  lemma ErrAppended<T>(items: seq<Item<T>>)
    ensures Err in items + [Err] && Last(items + [Err]) == Err && Front(items + [Err]) == items
  {
    assert (items + [Err])[|items|] == Err;
  }

  lemma {:induction false} ReceivedSplit(chunks: seq<Option<seq<byte>>>, k: nat)
    requires k <= |chunks| && None !in chunks[..k]
    ensures Received(chunks) == Received(chunks[..k]) + Received(chunks[k..])
    ensures Fails(chunks) <==> Fails(chunks[k..])
  {
    assert chunks == chunks[..k] + chunks[k..];
    if k > 0 {
      assert chunks[..k][0] == chunks[0] && chunks[0] in chunks[..k];
      assert chunks[..k][1..] == chunks[1..][..k - 1] && chunks[1..][k - 1..] == chunks[k..];
      forall x | x in chunks[1..][..k - 1] ensures x in chunks[..k] {
        assert x in chunks[..k][1..];
      }
      ReceivedSplit(chunks[1..], k - 1);
    } else {
      assert chunks[..0] == [] && chunks[0..] == chunks;
    }
  }

  lemma ReceivedNext(chunks: seq<Option<seq<byte>>>, k: nat)
    requires k < |chunks| && None !in chunks[..k] && chunks[k].Some?
    ensures Received(chunks[..k + 1]) == Received(chunks[..k]) + chunks[k].value
    ensures None !in chunks[..k + 1]
  {
    assert chunks[..k + 1] == chunks[..k] + [chunks[k]];
    assert chunks[..k + 1][..k] == chunks[..k] && chunks[..k + 1][k..] == [chunks[k]];
    ReceivedSplit(chunks[..k + 1], k);
    var one := [chunks[k]];
    assert one[1..] == [] && Received(one) == chunks[k].value + Received([]);
  }

  /** The inner loop: cut off and parse one frame after another until none is complete. */
  method Drain<T>(buf: seq<byte>, text: seq<byte> -> seq<byte>, decode: seq<byte> -> Option<T>)
    returns (rest: seq<byte>, items: seq<Item<T>>, broken: bool)
    ensures items == Items(Frames(buf), text, decode) && broken == Broken(Frames(buf), text, decode)
    ensures !broken ==> rest == Rest(buf)
  {
    rest, items, broken := buf, [], false;
    var pos := FindBlank(rest);
    while pos.Some?
      invariant pos == FindBlank(rest) && Rest(buf) == Rest(rest) && !broken
      invariant Items(Frames(buf), text, decode) == items + Items(Frames(rest), text, decode)
      invariant Broken(Frames(buf), text, decode) <==> Broken(Frames(rest), text, decode)
      decreases |rest|
    {
      var frame := rest[..pos.value + 2];
      NextFrame(rest, frame, rest[pos.value + 2..], items, text, decode);
      rest := rest[pos.value + 2..];
      match ParseSse(frame, text, decode) {
        case Value(v) =>
          items := items + [Ok(v)];
        case NoData =>
        case Bad =>
          return rest, items + [Err], true;
      }
      pos := FindBlank(rest);
    }
    assert items + [] == items;
  }

  /** What one turn of the inner loop does to the frames and items still to come. */
  lemma NextFrame<T>(buf: seq<byte>, frame: seq<byte>, rest: seq<byte>, items: seq<Item<T>>,
                     text: seq<byte> -> seq<byte>, decode: seq<byte> -> Option<T>)
    requires FindBlank(buf).Some? && frame == buf[..FindBlank(buf).value + 2]
    requires rest == buf[FindBlank(buf).value + 2..]
    ensures Rest(buf) == Rest(rest)
    ensures var all := items + Items(Frames(buf), text, decode);
            match ParseSse(frame, text, decode)
            case Value(v) => all == (items + [Ok(v)]) + Items(Frames(rest), text, decode)
            case NoData => all == items + Items(Frames(rest), text, decode)
            case Bad => all == items + [Err]
    ensures Broken(Frames(buf), text, decode) <==>
            ParseSse(frame, text, decode).Bad? || Broken(Frames(rest), text, decode)
  {
    assert Frames(buf)[0] == frame && Frames(buf)[1..] == Frames(rest);
  }

  /** Reads a stream of chunks; None is a transport error. */
  method Sse<T>(chunks: seq<Option<seq<byte>>>, text: seq<byte> -> seq<byte>, decode: seq<byte> -> Option<T>)
    returns (items: seq<Item<T>>)
    ensures items == Session(Received(chunks), Fails(chunks), text, decode)
  {
    items := [];
    var buf: seq<byte> := [];
    for k := 0 to |chunks|
      invariant None !in chunks[..k]
      invariant buf == Rest(Received(chunks[..k]))
      invariant items == Items(Frames(Received(chunks[..k])), text, decode)
      invariant !Broken(Frames(Received(chunks[..k])), text, decode)
    {
      ghost var sofar := Received(chunks[..k]);
      ReceivedSplit(chunks, k);
      if chunks[k].None? {
        assert chunks[k..][0].None? && sofar + [] == sofar;
        return items + [Err];
      }
      ReceivedNext(chunks, k);
      SplitOnArrival(sofar, chunks[k].value);
      ghost var added := Frames(buf + chunks[k].value);
      ItemsAppend(Frames(sofar), added, text, decode);
      var rest, more, broken := Drain(buf + chunks[k].value, text, decode);
      items := items + more;
      if broken {
        ReceivedSplit(chunks, k + 1);
        BrokenIsFinal(sofar + chunks[k].value, Received(chunks[k + 1..]), text, decode);
        return;
      }
      buf := rest;
    }
    assert chunks[..|chunks|] == chunks;
  }

  lemma BrokenIsFinal<T>(a: seq<byte>, b: seq<byte>, text: seq<byte> -> seq<byte>, decode: seq<byte> -> Option<T>)
    requires Broken(Frames(a), text, decode)
    ensures Broken(Frames(a + b), text, decode)
    ensures Items(Frames(a + b), text, decode) == Items(Frames(a), text, decode)
  {
    SplitOnArrival(a, b);
    ItemsAppend(Frames(a), Frames(Rest(a) + b), text, decode);
  }

  // ---------------------------------------------------------------- round trip

  /** Payloads the reader gives back unchanged. Compact JSON contains neither LF nor CR. */
  predicate LineSafe(p: seq<byte>) {
    10 !in p && !(p != [] && Last(p) == 13)
  }

  /** An event without a line feed in its payload is one frame. */
  lemma EventIsFrame(p: seq<byte>)
    requires LF !in p
    ensures IsFrame(Event(p))
  {
    var e, n := Event(p), |DATA| + |p|;
    forall i | 0 <= i < n ensures e[i] != LF && !BlankAt(e, i) {
      if i < |DATA| {
        assert e[i] == DATA[i];
      } else {
        assert e[i] == p[i - |DATA|] && e[i] in p;
      }
    }
    FindUnique(e, n);
  }

  lemma EventLine(p: seq<byte>)
    requires LF !in p
    ensures DataLine(Lines(Event(p))) == Some(StripCR(p))
  {
    var line := DATA + p;
    assert LF !in DATA && LF !in line;
    assert Event(p) == line + [LF] + [LF];
    LineLenOf(line, [LF]);
    assert Event(p)[..|line|] == line;
    var first := StripCR(line);
    if p == [] {
      assert line == DATA && first == DATA;
    } else {
      assert Last(line) == Last(p);
      assert first == DATA + StripCR(p);
    }
    assert Lines(Event(p))[0] == first && first[|DATA|..] == StripCR(p);
  }

  lemma LinesStep(text: seq<byte>)
    requires text != []
    ensures var i := LineLen(text);
            Lines(text) == if i == |text| then [text] else [StripCR(text[..i])] + Lines(text[i + 1..])
  {
    hide LineLen, StripCR;
  }

  lemma FirstLineFree(text: seq<byte>)
    ensures var i := LineLen(text); LF !in StripCR(text[..i]) && (i == |text| ==> LF !in text)
  {
    var i := LineLen(text);
    if i == |text| { assert text[..i] == text; }
  }

  lemma {:induction false} LineFeedFree(text: seq<byte>)
    ensures forall l :: l in Lines(text) ==> LF !in l
    decreases |text|
  {
    hide Lines, LineLen, StripCR;
    if text == [] {
      NoLines(text);
    } else {
      LinesStep(text);
      FirstLineFree(text);
      if LineLen(text) < |text| { LineFeedFree(text[LineLen(text) + 1..]); }
    }
  }

  lemma NoLines(text: seq<byte>)
    requires text == []
    ensures Lines(text) == []
  {
  }

  lemma {:induction false} DataLineFeedFree(lines: seq<seq<byte>>)
    requires forall l :: l in lines ==> LF !in l
    ensures DataLine(lines).Some? ==> LF !in DataLine(lines).value
  {
    if lines != [] {
      assert lines[0] in lines;
      DataLineFeedFree(lines[1..]);
    }
  }

  /** The raw payloads found in a list of frames. */
  function Payloads(frames: seq<seq<byte>>): seq<seq<byte>> {
    if frames == [] then []
    else match DataLine(Lines(frames[0]))
         case None => Payloads(frames[1..])
         case Some(p) => [p] + Payloads(frames[1..])
  }

  lemma {:induction false} PayloadsLineFeedFree(frames: seq<seq<byte>>)
    ensures forall p :: p in Payloads(frames) ==> LF !in p
  {
    if frames != [] {
      LineFeedFree(frames[0]);
      DataLineFeedFree(Lines(frames[0]));
      PayloadsLineFeedFree(frames[1..]);
    }
  }

  function EventList(ps: seq<seq<byte>>): seq<seq<byte>> {
    if ps == [] then [] else [Event(ps[0])] + EventList(ps[1..])
  }

  function StripAll(ps: seq<seq<byte>>): seq<seq<byte>> {
    if ps == [] then [] else [StripCR(ps[0])] + StripAll(ps[1..])
  }

  lemma {:induction false} EventsAreFrames(ps: seq<seq<byte>>)
    requires forall p :: p in ps ==> LF !in p
    ensures Frames(Events(ps)) == EventList(ps) && Rest(Events(ps)) == []
    ensures Payloads(EventList(ps)) == StripAll(ps)
  {
    if ps != [] {
      assert ps[0] in ps;
      EventIsFrame(ps[0]);
      EventLine(ps[0]);
      EventsAreFrames(ps[1..]);
      FrameInFront(Event(ps[0]), Events(ps[1..]));
    }
  }

  lemma {:induction false} StripAllFixed(ps: seq<seq<byte>>)
    requires forall p :: p in ps ==> LF !in p
    ensures StripAll(ps) == ps <==> forall p :: p in ps ==> LineSafe(p)
  {
    if ps != [] {
      StripAllFixed(ps[1..]);
      assert ps == [ps[0]] + ps[1..];
      assert StripAll(ps)[0] == StripCR(ps[0]) && StripAll(ps)[1..] == StripAll(ps[1..]);
      assert StripCR(ps[0]) == ps[0] <==> LineSafe(ps[0]) by { assert ps[0] in ps; }
      if StripAll(ps) == ps { assert StripAll(ps[1..]) == ps[1..]; }
    }
  }

  /**
   Writing payloads as events and splitting the stream gives the same payloads back exactly
   when none contains a line feed or ends in a carriage return.
   */
  lemma PayloadRoundTrip(ps: seq<seq<byte>>)
    ensures Payloads(Frames(Events(ps))) == ps <==> forall p :: p in ps ==> LineSafe(p)
  {
    PayloadsLineFeedFree(Frames(Events(ps)));
    if forall p :: p in ps ==> LF !in p {
      EventsAreFrames(ps);
      StripAllFixed(ps);
    }
  }

  function OkAll<T>(vs: seq<T>): seq<Item<T>> {
    if vs == [] then [] else [Ok(vs[0])] + OkAll(vs[1..])
  }

  lemma {:induction false} EventItems<T>(ps: seq<seq<byte>>, vs: seq<T>,
                                         text: seq<byte> -> seq<byte>, decode: seq<byte> -> Option<T>)
    requires |vs| == |ps| && forall i :: 0 <= i < |ps| ==>
               LineSafe(ps[i]) && text(Event(ps[i])) == Event(ps[i]) && decode(ps[i]) == Some(vs[i])
    ensures Items(EventList(ps), text, decode) == OkAll(vs)
  {
    if ps != [] {
      EventLine(ps[0]);
      EventItems(ps[1..], vs[1..], text, decode);
    }
  }

  /**
   End to end: values written as events, delivered in any chunks (a cut may fall inside a
   multi-byte character), are read back as exactly those values, in order. `text` is UTF-8
   replacement decoding, which changes nothing in valid text.
   */
  lemma RoundTrip<T>(ps: seq<seq<byte>>, vs: seq<T>, chunks: seq<Option<seq<byte>>>,
                     text: seq<byte> -> seq<byte>, decode: seq<byte> -> Option<T>)
    requires |vs| == |ps| && forall i :: 0 <= i < |ps| ==>
               LineSafe(ps[i]) && text(Event(ps[i])) == Event(ps[i]) && decode(ps[i]) == Some(vs[i])
    requires !Fails(chunks) && Received(chunks) == Events(ps)
    ensures Session(Received(chunks), Fails(chunks), text, decode) == OkAll(vs)
  {
    EventsAreFrames(ps);
    EventItems(ps, vs, text, decode);
  }
}
