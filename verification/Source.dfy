/**
 Source: the broadcast protocol driven by a ticker. Each generation primes once, then loops
 over "done or tick", samples, and broadcasts. A generation that has been stopped may still
 be anywhere in that loop.
 */
module Source {
  import opened Common
  import H = Hub
  import HubSafety

  datatype Local = Priming | Waiting | Ticked | Sampling

  /**
   One goroutine of run. `pending` is a tick sitting in the ticker's channel; the counters
   record completed Prime calls, ticks taken, samples started, and samples started after stop.
   */
  datatype Gen = Gen(local: Local, pending: bool, primes: nat, taken: nat, starts: nat, late: nat)

  /** `drains`: whether stopping the ticker also discards a tick already in its channel. */
  datatype State<T> = State(hub: H.State<T>, gens: seq<Gen>, drains: bool)

  datatype Step<T> =
    | Shared(step: H.Step<T>)
    | Prime(g: nat)
    | Tick(g: nat)
    | Take(g: nat)
    | Start(g: nat)
    | Yield(g: nat, v: T)
    | Fail(g: nat)
    | Quit(g: nat)

  function Init<T>(drains: bool): State<T> {
    State(H.Init(), [], drains)
  }

  predicate InLoop<T>(s: State<T>, g: nat, at: Local) {
    g < |s.hub.workers| && g < |s.gens| && s.hub.workers[g].pc.Away? && s.gens[g].local == at
  }

  ghost predicate Enabled<T>(s: State<T>, step: Step<T>) {
    match step
    case Shared(h) => !h.Work? && H.Enabled(s.hub, h)
    case Prime(g) => InLoop(s, g, Priming)
    case Tick(g) => g < |s.hub.workers| && g < |s.gens| && !s.hub.workers[g].stopped
    case Take(g) => InLoop(s, g, Waiting) && s.gens[g].pending
    case Start(g) => InLoop(s, g, Ticked)
    case Yield(g, _) => InLoop(s, g, Sampling)
    case Fail(g) => InLoop(s, g, Sampling)
    case Quit(g) => InLoop(s, g, Waiting) && s.hub.workers[g].stopped
  }

  /** The goroutines after a shared step: a new one if it started one, a drained one if it stopped one. */
  function Follow(gens: seq<Gen>, workers: nat, stopped: Option<nat>, drains: bool): seq<Gen> {
    if |gens| < workers then gens + [Gen(Priming, false, 0, 0, 0, 0)]
    else if drains && stopped.Some? && stopped.value < |gens| then
      gens[stopped.value := gens[stopped.value].(pending := false)]
    else gens
  }

  function Apply<T>(s: State<T>, step: Step<T>): State<T>
    requires Enabled(s, step)
  {
    match step
    case Shared(h) =>
      var hub := H.Apply(s.hub, h);
      var stopped := if hub.handle.None? then s.hub.handle else None;
      s.(hub := hub, gens := Follow(s.gens, |hub.workers|, stopped, s.drains))
    case Prime(g) =>
      SetGen(s, g, s.gens[g].(local := Waiting, primes := s.gens[g].primes + 1))
    case Tick(g) =>
      SetGen(s, g, s.gens[g].(pending := true))
    case Take(g) =>
      SetGen(s, g, s.gens[g].(local := Ticked, pending := false, taken := s.gens[g].taken + 1))
    case Start(g) =>
      var late := s.gens[g].late + if s.hub.workers[g].stopped then 1 else 0;
      SetGen(s, g, s.gens[g].(local := Sampling, starts := s.gens[g].starts + 1, late := late))
    case Yield(g, v) =>
      SetGen(s, g, s.gens[g].(local := Waiting)).(hub := H.Goto(s.hub, g, H.Wants(v)))
    case Fail(g) =>
      SetGen(s, g, s.gens[g].(local := Waiting))
    case Quit(g) =>
      s.(hub := H.Goto(s.hub, g, H.Exited))
  }

  function SetGen<T>(s: State<T>, g: nat, gen: Gen): State<T>
    requires g < |s.gens|
  {
    s.(gens := s.gens[g := gen])
  }

  ghost predicate Run<T>(s: State<T>, steps: seq<Step<T>>)
    decreases |steps|
  {
    steps == [] || (Enabled(s, steps[0]) && Run(Apply(s, steps[0]), steps[1..]))
  }

  ghost function After<T>(s: State<T>, steps: seq<Step<T>>): State<T>
    requires Run(s, steps)
    decreases |steps|
  {
    if steps == [] then s else After(Apply(s, steps[0]), steps[1..])
  }

  // ---------------------------------------------------------------- refinement

  /** The protocol steps that a step of the ticking source stands for. */
  function Lift<T>(step: Step<T>): seq<H.Step<T>> {
    match step
    case Shared(h) => [h]
    case Yield(g, v) => [H.Work(g, H.Wants(v))]
    case Quit(g) => [H.Work(g, H.Exited)]
    case _ => []
  }

  function LiftAll<T>(steps: seq<Step<T>>): seq<H.Step<T>> {
    if steps == [] then [] else Lift(steps[0]) + LiftAll(steps[1..])
  }

  lemma StepRefines<T>(s: State<T>, step: Step<T>)
    requires Enabled(s, step)
    ensures H.Run(s.hub, Lift(step)) && H.After(s.hub, Lift(step)) == Apply(s, step).hub
  {
    var steps := Lift(step);
    if steps != [] {
      assert steps[1..] == [];
      assert H.Enabled(s.hub, steps[0]) && H.Apply(s.hub, steps[0]) == Apply(s, step).hub;
      assert H.Run(H.Apply(s.hub, steps[0]), []);
    }
  }

  /** Every run of a ticking source is a run of the broadcast protocol. */
  lemma {:induction false} RunRefines<T>(s: State<T>, steps: seq<Step<T>>)
    requires Run(s, steps)
    ensures H.Run(s.hub, LiftAll(steps)) && H.After(s.hub, LiftAll(steps)) == After(s, steps).hub
    decreases |steps|
  {
    if steps != [] {
      StepRefines(s, steps[0]);
      RunRefines(Apply(s, steps[0]), steps[1..]);
      HubSafety.RunAppend(s.hub, Lift(steps[0]), LiftAll(steps[1..]));
    }
  }

  // ---------------------------------------------------------------- invariant

  /** Samples that generation gen can still start without a further tick. */
  function Credit(gen: Gen): nat {
    (if gen.local == Ticked then 1 else 0) + (if gen.pending then 1 else 0)
  }

  function LateBound(drains: bool): nat { if drains then 1 else 2 }

  predicate GenOk<T>(w: H.Worker<T>, gen: Gen, drains: bool) {
    && (!w.pc.Away? ==> gen.local == Waiting)
    && gen.primes == (if gen.local == Priming then 0 else 1)
    && gen.starts + (if gen.local == Ticked then 1 else 0) == gen.taken
    && (gen.local == Priming ==> gen.taken == 0)
    && (w.stopped && drains ==> !gen.pending)
    && (w.pc.Exited? ==> w.stopped)
    && (if w.stopped then gen.late + Credit(gen) <= LateBound(drains) else gen.late == 0)
  }

  ghost predicate GensOk<T>(s: State<T>) {
    && |s.gens| == |s.hub.workers|
    && forall g :: 0 <= g < |s.gens| ==> GenOk(s.hub.workers[g], s.gens[g], s.drains)
  }

  ghost predicate Inv<T>(s: State<T>) {
    H.Inv(s.hub) && GensOk(s)
  }

  /** What a shared step may do to the workers, as far as their goroutines are concerned. */
  ghost predicate SharedEffect<T>(a: H.State<T>, b: H.State<T>) {
    || (|b.workers| == |a.workers| + 1 && b.workers == a.workers + [H.Worker(false, H.Away)])
    || (|b.workers| == |a.workers|
        && forall g :: 0 <= g < |a.workers| ==>
             && (b.workers[g].stopped <==> a.workers[g].stopped || (b.handle.None? && a.handle == Some(g)))
             && (a.workers[g].pc.Away? ==> b.workers[g].pc.Away?)
             && (b.workers[g].pc.Exited? ==> a.workers[g].pc.Exited?))
  }

  /** Only the worker holding the mutex has moved. */
  ghost predicate Moved<T>(s: H.State<T>, t: H.State<T>, g: nat) {
    && g < |s.workers| == |t.workers| && t.handle == s.handle && !s.workers[g].pc.Away? && !t.workers[g].pc.Exited?
    && forall i :: 0 <= i < |s.workers| ==>
         t.workers[i].stopped == s.workers[i].stopped && (i != g ==> t.workers[i] == s.workers[i])
  }

  lemma MovedEffect<T>(s: H.State<T>, t: H.State<T>, g: nat)
    requires Moved(s, t, g)
    ensures SharedEffect(s, t)
  {
  }

  lemma FirstMoves<T>(s: H.State<T>, g: nat, id: nat)
    requires H.Enabled(s, H.FirstSelect(g, id))
    ensures Moved(s, H.ApplyFirst(s, g, id), g)
  {
  }

  lemma SecondMoves<T>(s: H.State<T>, g: nat)
    requires H.Enabled(s, H.SecondSelect(g))
    ensures Moved(s, H.ApplySecond(s, g), g)
  {
  }

  lemma ThirdMoves<T>(s: H.State<T>, g: nat)
    requires H.Enabled(s, H.ThirdSelect(g))
    ensures Moved(s, H.ApplyThird(s, g), g)
  {
  }

  lemma LockMoves<T>(s: H.State<T>, g: nat)
    requires H.Enabled(s, H.Lock(g))
    ensures Moved(s, H.ApplyLock(s, g), g)
  {
  }

  lemma UnlockMoves<T>(s: H.State<T>, g: nat)
    requires H.Enabled(s, H.Unlock(g))
    ensures SharedEffect(s, H.Apply(s, H.Unlock(g)))
  {
  }

  lemma SubscribeEffect<T>(s: H.State<T>)
    requires H.Inv(s)
    ensures SharedEffect(s, H.ApplySubscribe(s))
  {
    assert |s.subs + {s.nextId}| == |s.subs| + 1;
  }

  lemma SharedSteps<T>(s: H.State<T>, h: H.Step<T>)
    requires H.Inv(s) && H.Enabled(s, h) && !h.Work?
    ensures SharedEffect(s, H.Apply(s, h))
  {
    hide H.Inv, SharedEffect, Moved, H.ApplySubscribe, H.ApplyUnsubscribe, H.ApplyLock, H.ApplyFirst, H.ApplySecond,
         H.ApplyThird;
    match h
    case Subscribe => SubscribeEffect(s);
    case Unsubscribe(id) => UnsubscribeEffect(s, id);
    case Lock(g) =>
      LockMoves(s, g);
      MovedEffect(s, H.ApplyLock(s, g), g);
    case FirstSelect(g, id) =>
      FirstMoves(s, g, id);
      MovedEffect(s, H.ApplyFirst(s, g, id), g);
    case SecondSelect(g) =>
      SecondMoves(s, g);
      MovedEffect(s, H.ApplySecond(s, g), g);
    case ThirdSelect(g) =>
      ThirdMoves(s, g);
      MovedEffect(s, H.ApplyThird(s, g), g);
    case Unlock(g) => UnlockMoves(s, g);
    case Receive(id) => ReceiveEffect(s, id);
  }

  lemma ReceiveEffect<T>(s: H.State<T>, id: nat)
    requires H.Enabled(s, H.Receive(id))
    ensures SharedEffect(s, H.ApplyReceive(s, id))
  {
  }

  lemma UnsubscribeEffect<T>(s: H.State<T>, id: nat)
    requires H.Inv(s) && s.lock.None?
    ensures SharedEffect(s, H.ApplyUnsubscribe(s, id))
  {
  }

  lemma SharedKeeps<T>(s: State<T>, hub: H.State<T>)
    requires GensOk(s) && SharedEffect(s.hub, hub)
    ensures var stopped := if hub.handle.None? then s.hub.handle else None;
            GensOk(s.(hub := hub, gens := Follow(s.gens, |hub.workers|, stopped, s.drains)))
  {
  }

  lemma LocalKeeps<T>(s: State<T>, step: Step<T>)
    requires GensOk(s) && Enabled(s, step) && !step.Shared?
    ensures GensOk(Apply(s, step))
  {
  }

  lemma StepKeeps<T>(s: State<T>, step: Step<T>)
    requires Inv(s) && Enabled(s, step)
    ensures Inv(Apply(s, step))
  {
    StepRefines(s, step);
    HubSafety.RunKeeps(s.hub, Lift(step));
    if step.Shared? {
      SharedSteps(s.hub, step.step);
      SharedKeeps(s, H.Apply(s.hub, step.step));
    } else {
      LocalKeeps(s, step);
    }
  }

  lemma {:induction false} RunKeeps<T>(s: State<T>, steps: seq<Step<T>>)
    requires Inv(s) && Run(s, steps)
    ensures Inv(After(s, steps)) && After(s, steps).drains == s.drains
    decreases |steps|
  {
    if steps != [] {
      StepKeeps(s, steps[0]);
      RunKeeps(Apply(s, steps[0]), steps[1..]);
    }
  }

  // ---------------------------------------------------------------- theorems over every run

  /**
   Every generation primes before its first sample and at most once, samples at most once per
   tick, and once stopped starts at most one more sample (two if the ticker keeps a tick
   that had already been delivered when it was stopped). It leaves its loop only once stopped.
   */
  lemma StoppedGenerationsFade<T>(steps: seq<Step<T>>, drains: bool, g: nat)
    requires Run(Init<T>(drains), steps) && g < |After(Init<T>(drains), steps).gens|
    ensures var gen := After(Init<T>(drains), steps).gens[g];
            && gen.late <= (if drains then 1 else 2)
            && gen.starts <= gen.taken && gen.primes <= 1 && (gen.starts > 0 ==> gen.primes == 1)
    ensures |After(Init<T>(drains), steps).gens| == |After(Init<T>(drains), steps).hub.workers|
    ensures var s := After(Init<T>(drains), steps);
            && (!s.hub.workers[g].stopped ==> s.gens[g].late == 0)
            && (s.hub.workers[g].pc.Exited? ==> s.hub.workers[g].stopped)
  {
    HubSafety.InitInv<T>();
    RunKeeps(Init<T>(drains), steps);
    assert GenOk(After(Init<T>(drains), steps).hub.workers[g], After(Init<T>(drains), steps).gens[g], drains);
  }

  // ---------------------------------------------------------------- with nobody subscribed

  /** Steps a goroutine has left before it exits, if it is stopped and nobody subscribes. */
  function Rank<T>(w: H.Worker<T>, gen: Gen): nat {
    (if gen.pending then 5 else 0) +
    match w.pc
    case Exited => 0
    case Wants(_) => 3
    case Away => (match gen.local case Priming => 2 case Waiting => 1 case Ticked => 5 case Sampling => 4)
    case _ => 2
  }

  function TotalRank<T>(workers: seq<H.Worker<T>>, gens: seq<Gen>): nat
    requires |workers| == |gens|
  {
    if gens == [] then 0
    else TotalRank(Front(workers), Front(gens)) + Rank(Last(workers), Last(gens))
  }

  lemma {:induction false} RankDrops<T>(w: seq<H.Worker<T>>, gens: seq<Gen>, g: nat, w': H.Worker<T>, gen: Gen)
    requires |w| == |gens| && g < |gens|
    ensures TotalRank(w[g := w'], gens[g := gen]) == TotalRank(w, gens) - Rank(w[g], gens[g]) + Rank(w', gen)
    decreases |gens|
  {
    if g == |gens| - 1 {
      assert Front(w[g := w']) == Front(w) && Front(gens[g := gen]) == Front(gens);
    } else {
      RankDrops(Front(w), Front(gens), g, w', gen);
      assert Front(w[g := w']) == Front(w)[g := w'] && Front(gens[g := gen]) == Front(gens)[g := gen];
    }
  }

  /** The steps that are some goroutine's own progress. */
  predicate Progress<T>(step: Step<T>) {
    match step
    case Shared(h) => h.Lock? || h.FirstSelect? || h.SecondSelect? || h.ThirdSelect? || h.Unlock?
    case Tick(_) => false
    case _ => true
  }

  function Mover<T>(step: Step<T>): nat
    requires Progress(step)
  {
    match step
    case Shared(Lock(g)) => g
    case Shared(FirstSelect(g, _)) => g
    case Shared(SecondSelect(g)) => g
    case Shared(ThirdSelect(g)) => g
    case Shared(Unlock(g)) => g
    case Shared(_) => 0
    case Prime(g) => g
    case Tick(g) => g
    case Take(g) => g
    case Start(g) => g
    case Yield(g, _) => g
    case Fail(g) => g
    case Quit(g) => g
  }

  function ProgressCount<T>(steps: seq<Step<T>>): nat {
    if steps == [] then 0 else (if Progress(steps[0]) then 1 else 0) + ProgressCount(steps[1..])
  }

  /** With nobody subscribed no select is ever pending, so a broadcast is Lock then Unlock. */
  lemma NoSelects<T>(s: H.State<T>, g: nat)
    requires H.Skeleton(s) && s.subs == {} && g < |s.workers| && s.workers[g].pc.Holds()
    ensures s.lock == Some(g) && s.workers[g].pc.Picking? && s.workers[g].pc.todo == {}
  {
    assert s.workers[g].pc.Pending() == {};
  }

  lemma QuietProgress<T>(s: State<T>, step: Step<T>)
    requires Inv(s) && s.hub.subs == {} && Enabled(s, step) && Progress(step)
    ensures var t := Apply(s, step); var g := Mover(step);
            && t.hub.subs == {} && g < |s.gens|
            && |t.gens| == |s.gens| && |t.hub.workers| == |s.hub.workers|
            && t.hub.workers == s.hub.workers[g := t.hub.workers[g]]
            && t.gens == s.gens[g := t.gens[g]]
            && Rank(t.hub.workers[g], t.gens[g]) < Rank(s.hub.workers[g], s.gens[g])
  {
    var g := Mover(step);
    assert g < |s.gens|;
    assert GenOk(s.hub.workers[g], s.gens[g], s.drains);
    if s.hub.workers[g].pc.Holds() { NoSelects(s.hub, g); }
  }

  lemma QuietOther<T>(s: State<T>, step: Step<T>)
    requires Inv(s) && s.hub.subs == {} && Enabled(s, step) && !Progress(step)
    requires step != Shared(H.Subscribe)
    ensures var t := Apply(s, step);
            t.hub.subs == {} && t.hub.workers == s.hub.workers && t.gens == s.gens
  {
  }

  /**
   Sampling dies out. From any reachable state with no subscriber, in a run where nobody
   subscribes, the goroutines take no more steps in all than the state's total rank.
   */
  lemma {:induction false} SamplingDiesOut<T>(s: State<T>, steps: seq<Step<T>>)
    requires Inv(s) && s.hub.subs == {} && Run(s, steps)
    requires forall i :: 0 <= i < |steps| ==> steps[i] != Shared(H.Subscribe)
    ensures |After(s, steps).gens| == |After(s, steps).hub.workers|
    ensures After(s, steps).hub.subs == {}
    ensures ProgressCount(steps) + TotalRank(After(s, steps).hub.workers, After(s, steps).gens)
            <= TotalRank(s.hub.workers, s.gens)
    decreases |steps|
  {
    if steps != [] {
      var t := Apply(s, steps[0]);
      StepKeeps(s, steps[0]);
      if Progress(steps[0]) {
        QuietProgress(s, steps[0]);
        var g := Mover(steps[0]);
        RankDrops(s.hub.workers, s.gens, g, t.hub.workers[g], t.gens[g]);
      } else {
        QuietOther(s, steps[0]);
      }
      SamplingDiesOut(t, steps[1..]);
    }
  }

  /** And they do not get stuck on the way: until all have exited, one of them can move. */
  lemma StoppedGoroutinesCanMove<T>(s: State<T>, g: nat) returns (step: Step<T>)
    requires Inv(s) && s.hub.subs == {} && g < |s.hub.workers| && !s.hub.workers[g].pc.Exited?
    ensures Enabled(s, step) && Progress(step)
  {
    assert s.hub.workers[g].stopped;
    if s.hub.lock.Some? {
      NoSelects(s.hub, s.hub.lock.value);
      step := Shared(H.Unlock(s.hub.lock.value));
    } else if s.hub.workers[g].pc.Wants? {
      step := Shared(H.Lock(g));
    } else {
      step := match s.gens[g].local
              case Priming => Prime(g)
              case Waiting => Quit(g)
              case Ticked => Start(g)
              case Sampling => Fail(g);
    }
  }
}
