/**
 The journal stream: a goroutine scans the subprocess's output into a bounded channel, and
 on any way out reaps the subprocess and then closes the channel. Cancellation, the
 subprocess and the reader of the channel interleave freely with it.
 */
module Journal {
  import opened Common

  const CAPACITY: nat := 64

  datatype Pc<L> = Scanning | Sending(line: L) | Reaping | Closing | Done

  datatype Process = Running | Exited | Reaped

  datatype State<R, L> = State(
    produced: seq<R>,    // raw lines the subprocess has written
    ended: bool,         // whether it has closed its output, on exit at the latest
    taken: nat,          // how many of them have been scanned
    buf: seq<L>,
    delivered: seq<L>,
    lost: seq<L>,        // a parsed line given up on cancellation
    pc: Pc<L>,
    process: Process,
    cancelled: bool,
    closed: bool)

  datatype Step<R> =
    | Produce(r: R)
    | EndOutput
    | Exit
    | Cancel
    | Receive
    | Scan
    | EndOfInput
    | Overlong
    | Send
    | GiveUp
    | Reap
    | Close

  /** parse: the line parser. fits: whether a raw line fits the scanner's buffer. */
  datatype Config<!R, !L> = Config(parse: R -> Option<L>, fits: R -> bool)

  function Init<R, L>(): State<R, L> {
    State([], false, 0, [], [], [], Scanning, Running, false, false)
  }

  predicate Enabled<R, L>(c: Config<R, L>, s: State<R, L>, step: Step<R>) {
    match step
    case Produce(_) => s.process.Running? && !s.ended
    case EndOutput => s.process.Running?
    case Exit => s.process.Running?
    case Cancel => true
    case Receive => s.buf != []
    case Scan => s.pc.Scanning? && s.taken < |s.produced| && c.fits(s.produced[s.taken])
    case EndOfInput => s.pc.Scanning? && s.taken >= |s.produced| && s.ended
    case Overlong => s.pc.Scanning? && s.taken < |s.produced| && !c.fits(s.produced[s.taken])
    case Send => s.pc.Sending? && |s.buf| < CAPACITY
    case GiveUp => s.pc.Sending? && s.cancelled
    case Reap => s.pc.Reaping? && s.process.Exited?
    case Close => s.pc.Closing?
  }

  function Apply<R, L>(c: Config<R, L>, s: State<R, L>, step: Step<R>): State<R, L>
    requires Enabled(c, s, step)
  {
    match step
    case Produce(r) => s.(produced := s.produced + [r])
    case EndOutput => s.(ended := true)
    case Exit => s.(process := Exited, ended := true)
    case Cancel => s.(cancelled := true)
    case Receive => s.(delivered := s.delivered + [s.buf[0]], buf := s.buf[1..])
    case Scan =>
      (match c.parse(s.produced[s.taken])
       case None => s.(taken := s.taken + 1)
       case Some(line) => s.(taken := s.taken + 1, pc := Sending(line)))
    case EndOfInput => s.(pc := Reaping)
    case Overlong => s.(pc := Reaping)
    case Send => s.(buf := s.buf + [s.pc.line], pc := Scanning)
    case GiveUp => s.(lost := [s.pc.line], pc := Reaping)
    case Reap => s.(process := Reaped, pc := Closing)
    case Close => s.(closed := true, pc := Done)
  }

  predicate Run<R, L>(c: Config<R, L>, s: State<R, L>, steps: seq<Step<R>>)
    decreases |steps|
  {
    steps == [] || (Enabled(c, s, steps[0]) && Run(c, Apply(c, s, steps[0]), steps[1..]))
  }

  function After<R, L>(c: Config<R, L>, s: State<R, L>, steps: seq<Step<R>>): State<R, L>
    requires Run(c, s, steps)
    decreases |steps|
  {
    if steps == [] then s else After(c, Apply(c, s, steps[0]), steps[1..])
  }

  // ---------------------------------------------------------------- safety

  /** The lines the parser accepts, in order. */
  function Parsable<R, L>(c: Config<R, L>, raw: seq<R>): seq<L> {
    if raw == [] then []
    else Parsable(c, Front(raw)) + match c.parse(Last(raw)) case None => [] case Some(l) => [l]
  }

  function InFlight<L>(pc: Pc<L>): seq<L> { if pc.Sending? then [pc.line] else [] }

  predicate Leaving<L>(pc: Pc<L>) { pc.Reaping? || pc.Closing? || pc.Done? }

  ghost predicate Inv<R, L>(c: Config<R, L>, s: State<R, L>) {
    && s.taken <= |s.produced|
    && Parsable(c, s.produced[..s.taken]) == s.delivered + s.buf + InFlight(s.pc) + s.lost
    && |s.buf| <= CAPACITY
    && |s.lost| <= 1 && (s.lost != [] ==> s.cancelled && Leaving(s.pc))
    && (s.closed <==> s.pc.Done?)
    && (s.process.Reaped? <==> s.pc.Closing? || s.pc.Done?)
    && (Leaving(s.pc) && !s.cancelled && s.taken < |s.produced| ==> !c.fits(s.produced[s.taken]))
    && (Leaving(s.pc) && !s.cancelled && s.taken == |s.produced| ==> s.ended)
    && (!s.process.Running? ==> s.ended)
  }

  lemma ScanKeeps<R, L>(c: Config<R, L>, s: State<R, L>)
    requires Inv(c, s) && Enabled(c, s, Scan)
    ensures Inv(c, Apply(c, s, Scan))
  {
    var raw := s.produced[..s.taken + 1];
    assert Front(raw) == s.produced[..s.taken] && Last(raw) == s.produced[s.taken];
  }

  lemma ProduceKeeps<R, L>(c: Config<R, L>, s: State<R, L>, r: R)
    requires Inv(c, s) && Enabled(c, s, Produce(r))
    ensures Inv(c, Apply(c, s, Produce(r)))
  {
    assert (s.produced + [r])[..s.taken] == s.produced[..s.taken];
  }

  lemma ReceiveKeeps<R, L>(c: Config<R, L>, s: State<R, L>)
    requires Inv(c, s) && Enabled(c, s, Receive)
    ensures Inv(c, Apply(c, s, Receive))
  {
    hide Parsable;
    assert s.delivered + [s.buf[0]] + s.buf[1..] == s.delivered + s.buf;
  }

  /** The steps that leave what has been scanned and delivered alone. */
  lemma LifecycleKeeps<R, L>(c: Config<R, L>, s: State<R, L>, step: Step<R>)
    requires Inv(c, s) && Enabled(c, s, step)
    requires !step.Scan? && !step.Produce? && !step.Receive? && !step.Send? && !step.GiveUp?
    ensures Inv(c, Apply(c, s, step))
  {
    hide Parsable;
  }

  lemma SendKeeps<R, L>(c: Config<R, L>, s: State<R, L>, step: Step<R>)
    requires Inv(c, s) && Enabled(c, s, step) && (step.Send? || step.GiveUp?)
    ensures Inv(c, Apply(c, s, step))
  {
    hide Parsable;
  }

  lemma StepKeeps<R, L>(c: Config<R, L>, s: State<R, L>, step: Step<R>)
    requires Inv(c, s) && Enabled(c, s, step)
    ensures Inv(c, Apply(c, s, step))
  {
    hide Inv, Enabled, Apply;
    match step
    case Scan => ScanKeeps(c, s);
    case Produce(r) => ProduceKeeps(c, s, r);
    case Receive => ReceiveKeeps(c, s);
    case Send => SendKeeps(c, s, step);
    case GiveUp => SendKeeps(c, s, step);
    case _ => LifecycleKeeps(c, s, step);
  }

  lemma {:induction false} RunKeeps<R, L>(c: Config<R, L>, s: State<R, L>, steps: seq<Step<R>>)
    requires Inv(c, s) && Run(c, s, steps)
    ensures Inv(c, After(c, s, steps))
    decreases |steps|
  {
    hide Inv, Enabled, Apply;
    if steps != [] {
      StepKeeps(c, s, steps[0]);
      RunKeeps(c, Apply(c, s, steps[0]), steps[1..]);
    }
  }

  /**
   In every run, the lines delivered or buffered are a prefix of the parsable scanned lines
   and miss at most the one being sent; the buffer is bounded; the channel is closed only
   after the subprocess has been reaped; and a stream that closed without being cancelled has
   passed on every parsable line, up to the end of input or a line too long for the scanner.
   */
  lemma StreamIsPrefix<R, L>(c: Config<R, L>, steps: seq<Step<R>>)
    requires Run(c, Init(), steps)
    ensures var s := After(c, Init<R, L>(), steps);
            && s.taken <= |s.produced|
            && (var all := Parsable(c, s.produced[..s.taken]);
                s.delivered + s.buf <= all && |all| <= |s.delivered| + |s.buf| + 1)
            && |s.buf| <= 64
            && (s.closed ==> s.process.Reaped?)
            && (s.closed && !s.cancelled ==>
                  && s.delivered + s.buf == Parsable(c, s.produced[..s.taken])
                  && (if s.taken == |s.produced| then s.ended else !c.fits(s.produced[s.taken])))
  {
    assert Inv(c, Init<R, L>());
    RunKeeps(c, Init<R, L>(), steps);
    var s := After(c, Init<R, L>(), steps);
    LinesSplit(s.delivered + s.buf, InFlight(s.pc), s.lost);
  }

  lemma LinesSplit<L>(a: seq<L>, b: seq<L>, c: seq<L>)
    ensures a <= a + b + c
    ensures b == [] && c == [] ==> a + b + c == a
  {
  }

  // ---------------------------------------------------------------- the stream ends

  predicate Goroutine<R>(step: Step<R>) {
    step.Scan? || step.EndOfInput? || step.Overlong? || step.Send? || step.GiveUp? || step.Reap? || step.Close?
  }

  function Count<R>(steps: seq<Step<R>>): nat {
    if steps == [] then 0 else (if Goroutine(steps[0]) then 1 else 0) + Count(steps[1..])
  }

  /** The steps the goroutine has left once the subprocess has exited. */
  function Rank<R, L>(s: State<R, L>): nat
    requires s.taken <= |s.produced|
  {
    match s.pc
    case Done => 0
    case Closing => 1
    case Reaping => 2
    case Scanning => 3 + 2 * (|s.produced| - s.taken)
    case Sending(_) => 4 + 2 * (|s.produced| - s.taken)
  }

  lemma RankFalls<R, L>(c: Config<R, L>, s: State<R, L>, step: Step<R>)
    requires s.taken <= |s.produced| && Enabled(c, s, step) && !s.process.Running?
    ensures var t := Apply(c, s, step);
            && t.taken <= |t.produced| && !t.process.Running?
            && Rank(t) + (if Goroutine(step) then 1 else 0) <= Rank(s)
  {
  }

  /** Once the subprocess has exited, the goroutine takes boundedly many more steps. */
  lemma {:induction false} StreamEnds<R, L>(c: Config<R, L>, s: State<R, L>, steps: seq<Step<R>>)
    requires Inv(c, s) && !s.process.Running? && Run(c, s, steps)
    ensures After(c, s, steps).taken <= |After(c, s, steps).produced|
    ensures Count(steps) + Rank(After(c, s, steps)) <= Rank(s)
    decreases |steps|
  {
    hide Enabled, Apply, Rank, Goroutine;
    if steps != [] {
      RankFalls(c, s, steps[0]);
      StepKeeps(c, s, steps[0]);
      StreamEnds(c, Apply(c, s, steps[0]), steps[1..]);
    }
  }

  /** What the goroutine waits for when it cannot move: room or cancellation, output, or the exit. */
  predicate Waits<R, L>(s: State<R, L>) {
    || (s.pc.Sending? && |s.buf| == CAPACITY && !s.cancelled)
    || (s.pc.Scanning? && s.taken == |s.produced| && !s.ended)
    || (s.pc.Reaping? && s.process.Running?)
  }

  function NextMove<R, L>(c: Config<R, L>, s: State<R, L>): Step<R> {
    match s.pc
    case Scanning =>
      if s.taken >= |s.produced| then EndOfInput else if c.fits(s.produced[s.taken]) then Scan else Overlong
    case Sending(_) => if s.cancelled then GiveUp else Send
    case Reaping => Reap
    case _ => Close
  }

  /**
   And it is stuck in exactly three situations: sending into a full buffer that nobody reads or
   cancels, waiting for output that has not ended, and waiting to reap a subprocess that runs on
   after its output ended or its stream was given up. With the subprocess gone only the first remains.
   */
  lemma StuckOnlyWhenWaiting<R, L>(c: Config<R, L>, s: State<R, L>)
    requires Inv(c, s) && !s.pc.Done?
    ensures (exists step :: Goroutine(step) && Enabled(c, s, step)) <==> !Waits(s)
    ensures !s.process.Running? ==> (Waits(s) <==> s.pc.Sending? && |s.buf| == CAPACITY && !s.cancelled)
  {
    if !Waits(s) {
      assert Goroutine(NextMove(c, s)) && Enabled(c, s, NextMove(c, s));
    }
  }

  /** A subprocess that ends its output and runs on: the goroutine waits for it, the channel stays open. */
  lemma LingeringSubprocess<R, L>(c: Config<R, L>)
    ensures var steps: seq<Step<R>> := [EndOutput, EndOfInput];
            && Run(c, Init<R, L>(), steps)
            && var s := After(c, Init<R, L>(), steps); s.pc.Reaping? && s.process.Running? && !s.closed && Waits(s)
  {
    var s := Init<R, L>();
    var steps: seq<Step<R>> := [EndOutput, EndOfInput];
    assert steps[1..] == [EndOfInput] && steps[1..][1..] == [];
    var t := Apply(c, s, EndOutput);
    var u := Apply(c, t, EndOfInput);
    assert Run(c, u, []) && Run(c, t, steps[1..]);
  }
}
