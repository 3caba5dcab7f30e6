/**
 What generations of a ticking source that have been stopped can still do: broadcast to
 later subscribers, and call the sampler at the same time as a later generation.
 */
module LateSampling {
  import opened Source
  import H = Hub
  import HubSafety

  lemma Before<T>(s: State<T>, step: Step<T>, rest: seq<Step<T>>) returns (steps: seq<Step<T>>)
    requires Enabled(s, step) && Run(Apply(s, step), rest)
    ensures steps == [step] + rest && Run(s, steps) && After(s, steps) == After(Apply(s, step), rest)
  {
    steps := [step] + rest;
    assert steps[0] == step && steps[1..] == rest;
  }

  // ---------------------------------------------------------------- what a step does to one goroutine

  /** What no shared step does to a worker: start it again, make it want the mutex, or give it more to serve. */
  ghost predicate Fades<T>(a: H.Worker<T>, b: H.Worker<T>) {
    && (a.stopped ==> b.stopped)
    && (b.pc.Exited? <==> a.pc.Exited?)
    && (b.pc.Wants? ==> a.pc.Wants?)
    && (!a.pc.Wants? ==> b.pc.Pending() <= a.pc.Pending())
  }

  lemma SubscribeFades<T>(s: H.State<T>, g: nat)
    requires g < |s.workers|
    ensures g < |H.ApplySubscribe(s).workers| && Fades(s.workers[g], H.ApplySubscribe(s).workers[g])
  {
  }

  lemma UnsubscribeFades<T>(s: H.State<T>, id: nat, g: nat)
    requires g < |s.workers|
    ensures g < |H.ApplyUnsubscribe(s, id).workers| && Fades(s.workers[g], H.ApplyUnsubscribe(s, id).workers[g])
  {
  }

  lemma BroadcastFades<T>(s: H.State<T>, h: H.Step<T>, g: nat)
    requires H.Enabled(s, h) && g < |s.workers|
    requires h.Lock? || h.FirstSelect? || h.SecondSelect? || h.ThirdSelect? || h.Unlock? || h.Receive?
    ensures g < |H.Apply(s, h).workers| && Fades(s.workers[g], H.Apply(s, h).workers[g])
  {
    match h
    case FirstSelect(k, id) => assert H.Apply(s, h) == H.ApplyFirst(s, k, id);
    case ThirdSelect(k) => assert H.Apply(s, h) == H.ApplyThird(s, k);
    case _ =>
  }

  lemma SharedFades<T>(s: H.State<T>, h: H.Step<T>, g: nat)
    requires H.Enabled(s, h) && !h.Work? && g < |s.workers|
    ensures g < |H.Apply(s, h).workers| && Fades(s.workers[g], H.Apply(s, h).workers[g])
  {
    hide Fades, H.ApplySubscribe, H.ApplyUnsubscribe;
    match h
    case Subscribe => SubscribeFades(s, g);
    case Unsubscribe(id) => UnsubscribeFades(s, id, g);
    case _ => BroadcastFades(s, h, g);
  }

  lemma FollowFades(gens: seq<Gen>, workers: nat, stopped: Common.Option<nat>, drains: bool, g: nat)
    requires g < |gens|
    ensures var r := Follow(gens, workers, stopped, drains);
            g < |r| && r[g].local == gens[g].local && (r[g].pending ==> gens[g].pending)
  {
  }

  // ---------------------------------------------------------------- which stopped generations are spent

  /** Whether the goroutine has a broadcast ahead of it without a further tick. */
  predicate MayBroadcast<T>(w: H.Worker<T>, gen: Gen) {
    !w.pc.Exited? && (w.pc.Wants? || gen.pending || gen.local.Ticked? || gen.local.Sampling?)
  }

  /** Whether it is calling prime or sample, or has a sample ahead of it without a further tick. */
  predicate MayUse<T>(w: H.Worker<T>, gen: Gen) {
    !w.pc.Exited? && (gen.pending || !gen.local.Waiting?)
  }

  /** g is stopped, and what it still has to serve are subscribers older than n. */
  ghost predicate Stale<T>(s: State<T>, g: nat, n: nat) {
    && g < |s.gens| && g < |s.hub.workers| && s.hub.workers[g].stopped
    && forall id :: id in s.hub.workers[g].pc.Pending() ==> id < n
  }

  lemma SharedSpends<T>(s: State<T>, h: H.Step<T>, g: nat, n: nat)
    requires Enabled(s, Shared(h)) && Stale(s, g, n) && !MayBroadcast(s.hub.workers[g], s.gens[g])
    ensures var t := Apply(s, Shared(h)); Stale(t, g, n) && !MayBroadcast(t.hub.workers[g], t.gens[g])
  {
    hide H.Enabled, Follow;
    SharedFades(s.hub, h, g);
    var hub := H.Apply(s.hub, h);
    FollowFades(s.gens, |hub.workers|, if hub.handle.None? then s.hub.handle else Common.None, s.drains, g);
  }

  lemma SharedUnused<T>(s: State<T>, h: H.Step<T>, g: nat)
    requires Enabled(s, Shared(h)) && g < |s.gens| && g < |s.hub.workers| && s.hub.workers[g].stopped
    requires !MayUse(s.hub.workers[g], s.gens[g])
    ensures var t := Apply(s, Shared(h));
            g < |t.gens| && g < |t.hub.workers| && t.hub.workers[g].stopped && !MayUse(t.hub.workers[g], t.gens[g])
  {
    hide H.Enabled, Follow;
    SharedFades(s.hub, h, g);
    var hub := H.Apply(s.hub, h);
    FollowFades(s.gens, |hub.workers|, if hub.handle.None? then s.hub.handle else Common.None, s.drains, g);
  }

  lemma LocalSpends<T>(s: State<T>, step: Step<T>, g: nat, n: nat)
    requires Enabled(s, step) && !step.Shared? && Stale(s, g, n)
    requires !MayBroadcast(s.hub.workers[g], s.gens[g])
    ensures var t := Apply(s, step); Stale(t, g, n) && !MayBroadcast(t.hub.workers[g], t.gens[g])
  {
  }

  lemma LocalUnused<T>(s: State<T>, step: Step<T>, g: nat)
    requires Enabled(s, step) && !step.Shared?
    requires g < |s.gens| && g < |s.hub.workers| && s.hub.workers[g].stopped
    requires !MayUse(s.hub.workers[g], s.gens[g])
    ensures var t := Apply(s, step);
            g < |t.gens| && g < |t.hub.workers| && t.hub.workers[g].stopped && !MayUse(t.hub.workers[g], t.gens[g])
  {
  }

  lemma {:induction false} SpentStays<T>(s: State<T>, g: nat, n: nat, steps: seq<Step<T>>)
    requires Run(s, steps) && Stale(s, g, n) && !MayBroadcast(s.hub.workers[g], s.gens[g])
    ensures Stale(After(s, steps), g, n)
    ensures !MayBroadcast(After(s, steps).hub.workers[g], After(s, steps).gens[g])
    decreases |steps|
  {
    hide Enabled, Apply, MayBroadcast;
    if steps != [] {
      if steps[0].Shared? {
        SharedSpends(s, steps[0].step, g, n);
      } else {
        LocalSpends(s, steps[0], g, n);
      }
      SpentStays(Apply(s, steps[0]), g, n, steps[1..]);
    }
  }

  lemma {:induction false} UnusedStays<T>(s: State<T>, g: nat, steps: seq<Step<T>>)
    requires Run(s, steps) && g < |s.gens| && g < |s.hub.workers| && s.hub.workers[g].stopped
    requires !MayUse(s.hub.workers[g], s.gens[g])
    ensures var t := After(s, steps); g < |t.gens| && g < |t.hub.workers| && !MayUse(t.hub.workers[g], t.gens[g])
    decreases |steps|
  {
    hide Enabled, Apply, MayUse, MayBroadcast;
    if steps != [] {
      if steps[0].Shared? {
        SharedUnused(s, steps[0].step, g);
      } else {
        LocalUnused(s, steps[0], g);
      }
      UnusedStays(Apply(s, steps[0]), g, steps[1..]);
    }
  }

  // ---------------------------------------------------------------- late broadcasts

  ghost predicate CanBroadcast<T(!new)>(s: State<T>, g: nat) {
    exists steps :: Run(s, steps) && H.Enabled(After(s, steps).hub, H.Lock(g))
  }

  /** Some run leads g to serve a subscriber whose id is n or later. */
  ghost predicate CanReach<T(!new)>(s: State<T>, g: nat, n: nat) {
    exists steps, id :: Run(s, steps) && n <= id && HubSafety.Serves(After(s, steps).hub, g, id)
  }

  lemma CanBefore<T(!new)>(s: State<T>, step: Step<T>, g: nat, n: nat)
    requires Enabled(s, step)
    ensures CanBroadcast(Apply(s, step), g) ==> CanBroadcast(s, g)
    ensures CanReach(Apply(s, step), g, n) ==> CanReach(s, g, n)
  {
    hide HubSafety.Serves, Enabled, Apply;
    var t := Apply(s, step);
    if CanBroadcast(t, g) {
      var rest :| Run(t, rest) && H.Enabled(After(t, rest).hub, H.Lock(g));
      var _ := Before(s, step, rest);
    }
    if CanReach(t, g, n) {
      var rest, id :| Run(t, rest) && n <= id && HubSafety.Serves(After(t, rest).hub, g, id);
      var _ := Before(s, step, rest);
    }
  }

  lemma Now<T(!new)>(s: State<T>, g: nat, id: nat, n: nat)
    ensures H.Enabled(s.hub, H.Lock(g)) ==> CanBroadcast(s, g)
    ensures n <= id && HubSafety.Serves(s.hub, g, id) ==> CanReach(s, g, n)
  {
    var none: seq<Step<T>> := [];
    assert Run(s, none) && After(s, none) == s;
  }

  lemma NewcomerServed<T(!new)>(s: State<T>, g: nat, n: nat)
    requires s.hub.lock.None? && g < |s.hub.workers| && s.hub.workers[g].pc.Wants? && n <= s.hub.nextId
    ensures CanBroadcast(s, g) && CanReach(s, g, n)
  {
    hide CanBroadcast, CanReach, H.ApplySubscribe, H.ApplyLock, HubSafety.Serves, Follow;
    var t := Apply(s, Shared(H.Subscribe));
    HubSafety.SubscribedUnder(s.hub, g);
    HubSafety.LockedServes(t.hub, g, s.hub.nextId);
    var u := Apply(t, Shared(H.Lock(g)));
    Now(s, g, s.hub.nextId, n);
    Now(u, g, s.hub.nextId, n);
    CanBefore(t, Shared(H.Lock(g)), g, n);
    CanBefore(s, Shared(H.Subscribe), g, n);
  }

  /** A broadcast in progress moves on; no goroutine's own state changes, and only the holder's place in broadcast. */
  lemma Progress<T>(s: State<T>) returns (step: H.Step<T>)
    requires Inv(s) && s.hub.lock.Some?
    ensures Enabled(s, Shared(step)) && Inv(Apply(s, Shared(step)))
    ensures var t := Apply(s, Shared(step));
            t.gens == s.gens && t.drains == s.drains && HubSafety.Advanced(s.hub, t.hub, s.hub.lock.value)
  {
    hide GensOk, H.Apply, H.Enabled, H.Inv;
    step := HubSafety.BroadcastProgress(s.hub);
    StepKeeps(s, Shared(step));
    SameNumber(s);
  }

  lemma SameNumber<T>(s: State<T>)
    requires GensOk(s)
    ensures |s.gens| == |s.hub.workers|
  {
  }

  function Stage<T>(w: H.Worker<T>, gen: Gen): nat {
    if w.pc.Wants? then 0
    else match gen.local case Sampling => 1 case Ticked => 2 case Waiting => 3 case Priming => 4
  }

  /** The goroutine's next own step on the way to its next broadcast. */
  function Forward<T>(g: nat, gen: Gen, v: T): Step<T> {
    match gen.local
    case Sampling => Yield(g, v)
    case Ticked => Start(g)
    case Waiting => Take(g)
    case Priming => Prime(g)
  }

  lemma FreeWorker<T>(s: State<T>, g: nat)
    requires Inv(s) && s.hub.lock.None? && g < |s.hub.workers|
    ensures |s.gens| == |s.hub.workers| && !s.hub.workers[g].pc.Holds()
    ensures GenOk(s.hub.workers[g], s.gens[g], s.drains)
  {
  }

  lemma ForwardMoves<T>(s: State<T>, g: nat, v: T)
    requires Inv(s) && s.hub.lock.None? && g < |s.gens| && g < |s.hub.workers|
    requires MayBroadcast(s.hub.workers[g], s.gens[g]) && !s.hub.workers[g].pc.Wants?
    ensures var step := Forward(g, s.gens[g], v);
            && Enabled(s, step)
            && var t := Apply(s, step);
               && g < |t.gens| && g < |t.hub.workers|
               && t.hub.lock.None? && t.hub.nextId == s.hub.nextId
               && MayBroadcast(t.hub.workers[g], t.gens[g])
               && Stage(t.hub.workers[g], t.gens[g]) < Stage(s.hub.workers[g], s.gens[g])
  {
    hide Inv;
    FreeWorker(s, g);
  }

  lemma AdvancedKeeps<T>(s: H.State<T>, t: H.State<T>, k: nat, g: nat, gen: Gen)
    requires HubSafety.Advanced(s, t, k) && g < |s.workers| && s.workers[k].pc.Holds()
    ensures MayBroadcast(t.workers[g], gen) == MayBroadcast(s.workers[g], gen)
    ensures MayUse(t.workers[g], gen) == MayUse(s.workers[g], gen)
    ensures t.workers[g].stopped == s.workers[g].stopped
    ensures t.workers[g].pc.Wants? <==> s.workers[g].pc.Wants?
    ensures s.workers[g].pc.Away? ==> t.workers[g].pc.Away?
  {
  }

  lemma HolderHolds<T>(s: State<T>)
    requires Inv(s) && s.hub.lock.Some?
    ensures s.hub.lock.value < |s.hub.workers| && s.hub.workers[s.hub.lock.value].pc.Holds()
    ensures |s.gens| == |s.hub.workers|
  {
  }

  lemma LeftDrops<T>(s: H.State<T>, t: H.State<T>)
    requires s.lock.Some? && s.lock.value < |s.workers| && s.workers[s.lock.value].pc.Holds()
    requires HubSafety.Advanced(s, t, s.lock.value)
    ensures HubSafety.LeftOf(t) < HubSafety.LeftOf(s) && t.nextId == s.nextId && t.subs == s.subs
  {
  }

  lemma {:induction false} UnspentCan<T(!new)>(s: State<T>, g: nat, n: nat, v: T)
    requires Inv(s) && g < |s.gens| && g < |s.hub.workers| && n <= s.hub.nextId
    requires MayBroadcast(s.hub.workers[g], s.gens[g])
    ensures CanBroadcast(s, g) && CanReach(s, g, n)
    decreases Stage(s.hub.workers[g], s.gens[g]), HubSafety.LeftOf(s.hub)
  {
    hide CanBroadcast, CanReach, Inv, HubSafety.Left, HubSafety.LeftOf, HubSafety.Advanced, MayBroadcast, Apply,
         Enabled;
    if s.hub.lock.Some? {
      HolderHolds(s);
      var step := Progress(s);
      var t := Apply(s, Shared(step));
      AdvancedKeeps(s.hub, t.hub, s.hub.lock.value, g, s.gens[g]);
      LeftDrops(s.hub, t.hub);
      SameWorkers(s.hub, t.hub);
      UnspentCan(t, g, n, v);
      CanBefore(s, Shared(step), g, n);
    } else if s.hub.workers[g].pc.Wants? {
      NewcomerServed(s, g, n);
    } else {
      var step := Forward(g, s.gens[g], v);
      ForwardMoves(s, g, v);
      StepKeeps(s, step);
      UnspentCan(Apply(s, step), g, n, v);
      CanBefore(s, step, g, n);
    }
  }

  lemma SameWorkers<T>(s: H.State<T>, t: H.State<T>)
    requires s.lock.Some? && HubSafety.Advanced(s, t, s.lock.value)
    ensures |t.workers| == |s.workers|
  {
  }

  /** In a reachable state what a worker has still to serve are registered subscribers. */
  lemma PendingIsOld<T>(s: State<T>, g: nat)
    requires Inv(s) && g < |s.hub.workers| && s.hub.workers[g].stopped
    ensures Stale(s, g, s.hub.nextId)
  {
    if s.hub.workers[g].pc.Holds() {
      assert s.hub.lock == Common.Some(g);
      assert forall id :: id in s.hub.workers[g].pc.Pending() ==> id in s.hub.chans;
    }
  }

  lemma ServedIsPending<T>(s: State<T>, g: nat, id: nat)
    requires HubSafety.Serves(s.hub, g, id)
    ensures id in s.hub.workers[g].pc.Pending()
  {
  }

  /**
   Exactly which stopped generations can still be heard: those that want the mutex, are
   sampling, have taken a tick, or have a tick waiting and their loop still running. Those and
   no others can broadcast again, and be the first that a later subscriber hears from.
   */
  lemma StaleBroadcastIff<T(!new)>(s: State<T>, g: nat, v: T)
    requires Inv(s) && g < |s.hub.workers| && s.hub.workers[g].stopped
    ensures |s.gens| == |s.hub.workers|
    ensures CanBroadcast(s, g) <==> MayBroadcast(s.hub.workers[g], s.gens[g])
    ensures CanReach(s, g, s.hub.nextId) <==> MayBroadcast(s.hub.workers[g], s.gens[g])
  {
    hide H.Inv, Run, After;
    PendingIsOld(s, g);
    if MayBroadcast(s.hub.workers[g], s.gens[g]) {
      UnspentCan(s, g, s.hub.nextId, v);
    } else {
      forall steps | Run(s, steps)
        ensures !H.Enabled(After(s, steps).hub, H.Lock(g))
        ensures forall id :: s.hub.nextId <= id ==> !HubSafety.Serves(After(s, steps).hub, g, id)
      {
        SpentStays(s, g, s.hub.nextId, steps);
        forall id | s.hub.nextId <= id ensures !HubSafety.Serves(After(s, steps).hub, g, id) {
          if HubSafety.Serves(After(s, steps).hub, g, id) { ServedIsPending(After(s, steps), g, id); }
        }
      }
    }
  }

  // ---------------------------------------------------------------- overlapping samples

  /** Generation g is inside prime or sample: it may be touching the collector. */
  predicate Busy<T>(s: State<T>, g: nat) {
    && g < |s.gens| && g < |s.hub.workers|
    && s.hub.workers[g].pc.Away? && (s.gens[g].local.Priming? || s.gens[g].local.Sampling?)
  }

  /** Some run makes g busy at the same time as a generation numbered n or later. */
  ghost predicate CanOverlap<T(!new)>(s: State<T>, g: nat, n: nat) {
    exists steps, h :: Run(s, steps) && n <= h && Busy(After(s, steps), g) && Busy(After(s, steps), h)
  }

  lemma OverlapBefore<T(!new)>(s: State<T>, step: Step<T>, g: nat, n: nat)
    requires Enabled(s, step) && CanOverlap(Apply(s, step), g, n)
    ensures CanOverlap(s, g, n)
  {
    hide Enabled, Apply, Busy;
    var t := Apply(s, step);
    var rest, h :| Run(t, rest) && n <= h && Busy(After(t, rest), g) && Busy(After(t, rest), h);
    var _ := Before(s, step, rest);
  }

  lemma OverlapNow<T(!new)>(s: State<T>, g: nat, h: nat, n: nat)
    requires n <= h && Busy(s, g) && Busy(s, h)
    ensures CanOverlap(s, g, n)
  {
    var none: seq<Step<T>> := [];
    assert Run(s, none) && After(s, none) == s;
  }

  /** How far g is from being busy. */
  function UseStage<T>(w: H.Worker<T>, gen: Gen): nat {
    if w.pc.Wants? then 3
    else match gen.local case Priming => 0 case Sampling => 0 case Ticked => 1 case Waiting => 2
  }

  function TowardsUse<T>(g: nat, w: H.Worker<T>, gen: Gen): Step<T> {
    if w.pc.Wants? then Shared(H.Lock(g)) else if gen.local.Ticked? then Start(g) else Take(g)
  }

  lemma UseMoves<T>(s: State<T>, g: nat)
    requires Inv(s) && s.hub.lock.None? && g < |s.gens| && g < |s.hub.workers|
    requires MayUse(s.hub.workers[g], s.gens[g]) && !Busy(s, g)
    ensures var step := TowardsUse(g, s.hub.workers[g], s.gens[g]);
            && Enabled(s, step)
            && var t := Apply(s, step);
               && |t.gens| == |s.gens| && g < |t.hub.workers|
               && MayUse(t.hub.workers[g], t.gens[g]) && t.hub.workers[g].stopped == s.hub.workers[g].stopped
               && UseStage(t.hub.workers[g], t.gens[g]) < UseStage(s.hub.workers[g], s.gens[g])
  {
    hide Inv;
    FreeWorker(s, g);
  }

  /** Unsubscribing does not touch a generation that has been stopped before. */
  lemma LeavingSpares<T>(s: State<T>, id: nat, g: nat)
    requires Inv(s) && s.hub.lock.None? && id in s.hub.subs && g < |s.hub.workers| && s.hub.workers[g].stopped
    ensures var t := Apply(s, Shared(H.Unsubscribe(id)));
            && |t.gens| == |s.gens| && g < |t.gens| && g < |t.hub.workers|
            && t.hub.workers[g] == s.hub.workers[g] && t.gens[g] == s.gens[g]
            && t.hub.subs == s.hub.subs - {id} && |t.hub.subs| < |s.hub.subs|
  {
    LiveIsNot(s.hub, g);
    HubSafety.UnsubscribeRemoves(s.hub, id);
  }

  lemma LiveIsNot<T>(s: H.State<T>, g: nat)
    requires H.Inv(s) && g < |s.workers| && s.workers[g].stopped
    ensures s.handle != Common.Some(g)
  {
  }

  /** When nobody subscribes, the next subscriber starts a generation, and it starts by priming. */
  lemma NewGeneration<T>(s: State<T>, g: nat)
    requires |s.gens| == |s.hub.workers| && s.hub.lock.None? && s.hub.subs == {} && Busy(s, g)
    ensures Busy(Apply(s, Shared(H.Subscribe)), g) && Busy(Apply(s, Shared(H.Subscribe)), |s.gens|)
  {
  }

  lemma {:induction false} UnusedUpCan<T(!new)>(s: State<T>, g: nat, n: nat)
    requires Inv(s) && g < |s.gens| && g < |s.hub.workers| && s.hub.workers[g].stopped && n <= |s.gens|
    requires MayUse(s.hub.workers[g], s.gens[g])
    ensures CanOverlap(s, g, n)
    decreases UseStage(s.hub.workers[g], s.gens[g]), |s.hub.subs|, HubSafety.LeftOf(s.hub)
  {
    hide CanOverlap, Inv, HubSafety.Left, HubSafety.LeftOf, HubSafety.Advanced, MayUse, Apply, Busy, MayBroadcast;
    if s.hub.lock.Some? {
      HolderHolds(s);
      var step := Progress(s);
      var t := Apply(s, Shared(step));
      AdvancedKeeps(s.hub, t.hub, s.hub.lock.value, g, s.gens[g]);
      LeftDrops(s.hub, t.hub);
      SameWorkers(s.hub, t.hub);
      UnusedUpCan(t, g, n);
      OverlapBefore(s, Shared(step), g, n);
    } else if !Busy(s, g) {
      var step := TowardsUse(g, s.hub.workers[g], s.gens[g]);
      UseMoves(s, g);
      StepKeeps(s, step);
      UnusedUpCan(Apply(s, step), g, n);
      OverlapBefore(s, step, g, n);
    } else if s.hub.subs != {} {
      var id :| id in s.hub.subs;
      LeavingSpares(s, id, g);
      StepKeeps(s, Shared(H.Unsubscribe(id)));
      UnusedUpCan(Apply(s, Shared(H.Unsubscribe(id))), g, n);
      OverlapBefore(s, Shared(H.Unsubscribe(id)), g, n);
    } else {
      FreeWorker(s, g);
      NewGeneration(s, g);
      OverlapNow(Apply(s, Shared(H.Subscribe)), g, |s.gens|, n);
      OverlapBefore(s, Shared(H.Subscribe), g, n);
    }
  }

  /**
   Exactly which stopped generations can still be calling the sampler at the same time as a
   later generation: those inside prime or sample, and those with a sample ahead of them.
   */
  lemma OverlapIff<T(!new)>(s: State<T>, g: nat)
    requires Inv(s) && g < |s.hub.workers| && s.hub.workers[g].stopped
    ensures |s.gens| == |s.hub.workers|
    ensures CanOverlap(s, g, |s.gens|) <==> MayUse(s.hub.workers[g], s.gens[g])
  {
    hide H.Inv, Run, After, MayBroadcast;
    if MayUse(s.hub.workers[g], s.gens[g]) {
      UnusedUpCan(s, g, |s.gens|);
    } else {
      forall steps | Run(s, steps) ensures !Busy(After(s, steps), g) {
        UnusedStays(s, g, steps);
      }
    }
  }

  // ---------------------------------------------------------------- concrete runs

  /** A generation stopped while it samples, and the next one priming: two users of one collector. */
  lemma OverlapIsPossible<T>(drains: bool) returns (steps: seq<Step<T>>)
    ensures Run(Init<T>(drains), steps)
    ensures var s := After(Init<T>(drains), steps);
            && |s.gens| == |s.hub.workers| == 2 && s.hub.workers[0].stopped && !s.hub.workers[1].stopped
            && s.gens[0].local == Sampling && s.gens[1].local == Priming && Busy(s, 0) && Busy(s, 1)
  {
    var s0 := Init<T>(drains);
    var s1 := Apply(s0, Shared(H.Subscribe));
    var s2 := Apply(s1, Prime(0));
    var s3 := Apply(s2, Tick(0));
    var s4 := Apply(s3, Take(0));
    var s5 := Apply(s4, Start(0));
    var rest: seq<Step<T>> := LeaveAndReturn(s5);
    var t4 := Before(s4, Start(0), rest);
    var t3 := Before(s3, Take(0), t4);
    var t2 := Before(s2, Tick(0), t3);
    var t1 := Before(s1, Prime(0), t2);
    steps := Before(s0, Shared(H.Subscribe), t1);
  }

  lemma LeaveAndReturn<T>(s: State<T>) returns (steps: seq<Step<T>>)
    requires |s.gens| == |s.hub.workers| == 1 && InLoop(s, 0, Sampling) && s.hub.lock.None?
    requires s.hub.handle == Common.Some(0) && s.hub.subs == {0} && 0 in s.hub.chans
    ensures Run(s, steps)
    ensures var t := After(s, steps);
            && |t.gens| == |t.hub.workers| == 2 && t.hub.workers[0].stopped && !t.hub.workers[1].stopped
            && t.gens[0].local == Sampling && t.gens[1].local == Priming && Busy(t, 0) && Busy(t, 1)
  {
    var t := Apply(s, Shared(H.Unsubscribe(0)));
    assert t.hub.subs == {};
    var u := Apply(t, Shared(H.Subscribe));
    var end: seq<Step<T>> := [];
    assert Run(u, end);
    var last := Before(t, Shared(H.Subscribe), end);
    steps := Before(s, Shared(H.Unsubscribe(0)), last);
  }

  /** The bound on late samples is met: one after a stop that drains, two after one that does not. */
  lemma LateBoundIsMet<T>(drains: bool) returns (steps: seq<Step<T>>)
    ensures Run(Init<T>(drains), steps)
    ensures var s := After(Init<T>(drains), steps);
            |s.gens| == 1 && s.gens[0].late == LateBound(drains)
  {
    var s0 := Init<T>(drains);
    var s1 := Apply(s0, Shared(H.Subscribe));
    var s2 := Apply(s1, Prime(0));
    var s3 := Apply(s2, Tick(0));
    var s4 := Apply(s3, Take(0));
    var s5 := Apply(s4, Tick(0));
    var rest: seq<Step<T>> := StoppedWithTicks(s5);
    var t4 := Before(s4, Tick(0), rest);
    var t3 := Before(s3, Take(0), t4);
    var t2 := Before(s2, Tick(0), t3);
    var t1 := Before(s1, Prime(0), t2);
    steps := Before(s0, Shared(H.Subscribe), t1);
  }

  /** One tick taken and another waiting when the last subscriber leaves. */
  lemma StoppedWithTicks<T>(s: State<T>) returns (steps: seq<Step<T>>)
    requires |s.gens| == |s.hub.workers| == 1 && InLoop(s, 0, Ticked) && s.gens[0].pending && s.gens[0].late == 0
    requires s.hub.lock.None? && s.hub.handle == Common.Some(0) && s.hub.subs == {0} && 0 in s.hub.chans
    ensures Run(s, steps) && |After(s, steps).gens| == 1 && After(s, steps).gens[0].late == LateBound(s.drains)
  {
    var t := Apply(s, Shared(H.Unsubscribe(0)));
    assert t.hub.subs == {};
    var u := Apply(t, Start(0));
    var rest: seq<Step<T>> := SecondLateSample(u);
    var last := Before(t, Start(0), rest);
    steps := Before(s, Shared(H.Unsubscribe(0)), last);
  }

  /** With a tick still waiting, a sample that fails is followed by another. */
  lemma SecondLateSample<T>(s: State<T>) returns (steps: seq<Step<T>>)
    requires |s.gens| == 1 && InLoop(s, 0, Sampling) && s.hub.workers[0].stopped
    ensures Run(s, steps) && |After(s, steps).gens| == 1
    ensures After(s, steps).gens[0].late == s.gens[0].late + if s.gens[0].pending then 1 else 0
  {
    steps := [];
    if s.gens[0].pending {
      var s1 := Apply(s, Fail(0));
      var s2 := Apply(s1, Take(0));
      var s3 := Apply(s2, Start(0));
      var end: seq<Step<T>> := [];
      assert Run(s3, end);
      var t2 := Before(s2, Start(0), end);
      var t1 := Before(s1, Take(0), t2);
      steps := Before(s, Fail(0), t1);
    }
  }
}
